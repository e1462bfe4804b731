/**
 * The producer-side controller state of the companion application: fourteen
 * button flags, two sticks and two triggers, mutated field by field through
 * string-keyed entry points, and serialised as a full-state wire snapshot.
 */
module Producer {
  import opened Base

  datatype Stick = Stick(x: i32, y: i32)

  datatype Triggers = Triggers(lt: u8, rt: u8)

  /** The fourteen button identifiers that `update_button` recognises. */
  datatype ButtonId =
    | A | B | X | Y | LB | RB | Select | Start | Back | Home
    | Up | Down | Left | Right

  /** The string each identifier is known by, on the invoke surface and on the wire. */
  function Name(id: ButtonId): string
  {
    match id
    case A => "A"
    case B => "B"
    case X => "X"
    case Y => "Y"
    case LB => "LB"
    case RB => "RB"
    case Select => "SELECT"
    case Start => "START"
    case Back => "BACK"
    case Home => "HOME"
    case Up => "UP"
    case Down => "DOWN"
    case Left => "LEFT"
    case Right => "RIGHT"
  }

  /** The arms of the string match in `update_button`; any other string is unrecognised. */
  function ButtonIdOf(btn: string): (r: Option<ButtonId>)
    ensures forall id :: r == Some(id) <==> btn == Name(id)
  {
    if btn == "A" then Some(A)
    else if btn == "B" then Some(B)
    else if btn == "X" then Some(X)
    else if btn == "Y" then Some(Y)
    else if btn == "LB" then Some(LB)
    else if btn == "RB" then Some(RB)
    else if btn == "SELECT" then Some(Select)
    else if btn == "START" then Some(Start)
    else if btn == "BACK" then Some(Back)
    else if btn == "HOME" then Some(Home)
    else if btn == "UP" then Some(Up)
    else if btn == "DOWN" then Some(Down)
    else if btn == "LEFT" then Some(Left)
    else if btn == "RIGHT" then Some(Right)
    else None
  }

  datatype Buttons = Buttons(
    a: bool, b: bool, x: bool, y: bool, lb: bool, rb: bool,
    select: bool, start: bool, back: bool, home: bool,
    dpadUp: bool, dpadDown: bool, dpadLeft: bool, dpadRight: bool)
  {
    /** The flag that belongs to `id`. */
    function Get(id: ButtonId): bool
    {
      match id
      case A => a
      case B => b
      case X => x
      case Y => y
      case LB => lb
      case RB => rb
      case Select => select
      case Start => start
      case Back => back
      case Home => home
      case Up => dpadUp
      case Down => dpadDown
      case Left => dpadLeft
      case Right => dpadRight
    }

    /**
     * The effect of `update_button(btn, status)` on the button set: the flag
     * whose name is `btn` becomes `status`.
     */
    function Updated(btn: string, status: bool): Buttons
    {
      Buttons(
        if btn == "A" then status else a, if btn == "B" then status else b,
        if btn == "X" then status else x, if btn == "Y" then status else y,
        if btn == "LB" then status else lb, if btn == "RB" then status else rb,
        if btn == "SELECT" then status else select, if btn == "START" then status else start,
        if btn == "BACK" then status else back, if btn == "HOME" then status else home,
        if btn == "UP" then status else dpadUp, if btn == "DOWN" then status else dpadDown,
        if btn == "LEFT" then status else dpadLeft, if btn == "RIGHT" then status else dpadRight)
    }
  }

  /** `Buttons::default()`: nothing pressed. */
  const NoButtons := Buttons(false, false, false, false, false, false, false,
                             false, false, false, false, false, false, false)

  /**
   * `update_button` sets the flag whose name is `btn` to `status` and leaves
   * every other flag alone; a string that names no button changes nothing.
   */
  lemma UpdateButtonEffect(b: Buttons, btn: string, status: bool)
    ensures forall id :: b.Updated(btn, status).Get(id) == if btn == Name(id) then status else b.Get(id)
    ensures ButtonIdOf(btn) == None ==> b.Updated(btn, status) == b
  {
    forall id ensures b.Updated(btn, status).Get(id) == if btn == Name(id) then status else b.Get(id) {
      UpdatedGet(b, btn, status, id);
    }
  }

  /** One flag after `update_button`: `status` when `btn` is its name, its old value otherwise. */
  lemma UpdatedGet(b: Buttons, btn: string, status: bool, id: ButtonId)
    ensures b.Updated(btn, status).Get(id) == if btn == Name(id) then status else b.Get(id)
  {
  }

  /** The last write to a name wins; writing the same status twice is idempotent. */
  lemma UpdateButtonLastWriteWins(b: Buttons, btn: string, s1: bool, s2: bool)
    ensures b.Updated(btn, s1).Updated(btn, s2) == b.Updated(btn, s2)
    ensures b.Updated(btn, s2).Updated(btn, s2) == b.Updated(btn, s2)
  {
  }

  /** One `update_button` call: an identifier and the status it sets. */
  datatype ButtonWrite = ButtonWrite(btn: string, status: bool)

  /** The button set after the writes of `ops`, applied in order. */
  function ApplyWrites(b: Buttons, ops: seq<ButtonWrite>): Buttons
  {
    if ops == [] then b
    else ApplyWrites(b, ops[..|ops| - 1]).Updated(ops[|ops| - 1].btn, ops[|ops| - 1].status)
  }

  /** The status given by the last write in `ops` that names `id`, if any write does. */
  function LastWrite(ops: seq<ButtonWrite>, id: ButtonId): Option<bool>
  {
    if ops == [] then None
    else if ops[|ops| - 1].btn == Name(id) then Some(ops[|ops| - 1].status)
    else LastWrite(ops[..|ops| - 1], id)
  }

  /**
   * After any sequence of button writes, each flag holds the status of the
   * last write that named it, or its old value when none did; writes with
   * unrecognised names have no effect.
   */
  lemma {:induction false} ApplyWritesLastWins(b: Buttons, ops: seq<ButtonWrite>, id: ButtonId)
    ensures ApplyWrites(b, ops).Get(id) == match LastWrite(ops, id) case Some(v) => v case None => b.Get(id)
    decreases |ops|
  {
    if ops != [] {
      var last := ops[|ops| - 1];
      ApplyWritesLastWins(b, ops[..|ops| - 1], id);
      UpdatedGet(ApplyWrites(b, ops[..|ops| - 1]), last.btn, last.status, id);
    }
  }

  /** The order in which `to_output_string` lists pressed buttons. */
  const OutputOrder: seq<ButtonId> :=
    [LB, RB, Up, Down, Left, Right, Y, X, A, B, Select, Home, Back, Start]

  /** Every button has its place in `OutputOrder`. */
  lemma OutputOrderComplete(id: ButtonId)
    ensures id in OutputOrder
  {
  }

  /** The position of a name in `OutputOrder`; 14 for a string that names no button. */
  function OutputRank(name: string): nat
  {
    match ButtonIdOf(name)
    case None => 14
    case Some(id) =>
      match id
      case LB => 0
      case RB => 1
      case Up => 2
      case Down => 3
      case Left => 4
      case Right => 5
      case Y => 6
      case X => 7
      case A => 8
      case B => 9
      case Select => 10
      case Home => 11
      case Back => 12
      case Start => 13
  }

  /** Every name in `OutputOrder` sits at its own rank. */
  lemma OutputOrderRanks()
    ensures |OutputOrder| == 14
    ensures forall k :: 0 <= k < 14 ==> OutputRank(Name(OutputOrder[k])) == k
  {
  }

  /** Names listed in strictly increasing output rank (hence without duplicates). */
  ghost predicate StrictlyRanked(names: seq<string>)
  {
    forall i, j :: 0 <= i < j < |names| ==> OutputRank(names[i]) < OutputRank(names[j])
  }

  /** The names of the pressed buttons of `order`, in the order of `order`. */
  function PressedNames(b: Buttons, order: seq<ButtonId>): seq<string>
  {
    if order == [] then []
    else (if b.Get(order[0]) then [Name(order[0])] else []) + PressedNames(b, order[1..])
  }

  lemma {:induction false} PressedNamesLength(b: Buttons, order: seq<ButtonId>)
    ensures |PressedNames(b, order)| <= |order|
    decreases |order|
  {
    if order != [] {
      PressedNamesLength(b, order[1..]);
    }
  }

  lemma {:induction false} PressedNamesHas(b: Buttons, order: seq<ButtonId>, id: ButtonId)
    ensures Name(id) in PressedNames(b, order) <==> id in order && b.Get(id)
    decreases |order|
  {
    if order != [] {
      PressedNamesHas(b, order[1..], id);
      assert ButtonIdOf(Name(id)) == Some(id);
      assert order == [order[0]] + order[1..];
    }
  }

  lemma {:induction false} PressedNamesOnly(b: Buttons, order: seq<ButtonId>, s: string)
    requires s in PressedNames(b, order)
    ensures ButtonIdOf(s).Some? && b.Get(ButtonIdOf(s).value)
    decreases |order|
  {
    if s !in PressedNames(b, order[1..]) {
      assert s == Name(order[0]);
    } else {
      PressedNamesOnly(b, order[1..], s);
    }
  }

  lemma {:induction false} PressedNamesRanked(b: Buttons, k: nat)
    requires k <= |OutputOrder|
    ensures forall s :: s in PressedNames(b, OutputOrder[k..]) ==> k <= OutputRank(s) < 14
    ensures StrictlyRanked(PressedNames(b, OutputOrder[k..]))
    decreases |OutputOrder| - k
  {
    OutputOrderRanks();
    if k < |OutputOrder| {
      PressedNamesRanked(b, k + 1);
      assert OutputOrder[k..][1..] == OutputOrder[k + 1..];
    }
  }

  /**
   * The `buttons` list of a snapshot: the names of the pressed buttons, each
   * once, in the fixed order LB, RB, UP, DOWN, LEFT, RIGHT, Y, X, A, B,
   * SELECT, HOME, BACK, START.
   */
  function EncodeButtons(b: Buttons): (names: seq<string>)
    ensures |names| <= 14
    ensures forall id :: Name(id) in names <==> b.Get(id)
    ensures forall s :: s in names ==> ButtonIdOf(s).Some? && b.Get(ButtonIdOf(s).value)
    ensures StrictlyRanked(names)
    ensures forall i, j :: 0 <= i < j < |names| ==> names[i] != names[j]
  {
    PressedNamesLength(b, OutputOrder);
    PressedNamesRanked(b, 0);
    assert OutputOrder[0..] == OutputOrder;
    forall id
      ensures Name(id) in PressedNames(b, OutputOrder) <==> b.Get(id)
    {
      PressedNamesHas(b, OutputOrder, id);
      OutputOrderComplete(id);
    }
    forall s | s in PressedNames(b, OutputOrder)
      ensures ButtonIdOf(s).Some? && b.Get(ButtonIdOf(s).value)
    {
      PressedNamesOnly(b, OutputOrder, s);
    }
    PressedNames(b, OutputOrder)
  }

  /** With nothing pressed the button list is empty. */
  lemma EncodeNoButtons(b: Buttons)
    requires forall id :: !b.Get(id)
    ensures EncodeButtons(b) == []
  {
    FirstElement(EncodeButtons(b));
  }

  /** With exactly one button pressed the button list is that button's name alone. */
  lemma EncodeSingleButton(b: Buttons, id: ButtonId)
    requires b.Get(id)
    requires forall j :: j != id ==> !b.Get(j)
    ensures EncodeButtons(b) == [Name(id)]
  {
    var names := EncodeButtons(b);
    assert forall s :: s in names ==> s == Name(id);
    FirstTwoElements(names);
  }

  /**
   * The wire snapshot `to_output_string` serialises: the full state, never a
   * delta. Stick axes keep the producer's 32-bit range.
   */
  datatype Snapshot = Snapshot(
    buttons: seq<string>,
    leftTrigger: u8, rightTrigger: u8,
    thumbLx: i32, thumbLy: i32, thumbRx: i32, thumbRy: i32)

  /** The controller state the producer owns, mutated in place by its three entry points. */
  class GamepadState {
    var leftStick: Stick
    var rightStick: Stick
    var buttons: Buttons
    var triggers: Triggers

    /** `GamepadState::default()`, as `new_shared_state` creates it. */
    constructor ()
      ensures buttons == NoButtons && forall id :: !buttons.Get(id)
      ensures leftStick == Stick(0, 0) && rightStick == Stick(0, 0)
      ensures triggers == Triggers(0, 0)
    {
      leftStick := Stick(0, 0);
      rightStick := Stick(0, 0);
      buttons := NoButtons;
      triggers := Triggers(0, 0);
    }

    method UpdateButton(btn: string, status: bool)
      modifies this
      ensures buttons == old(buttons).Updated(btn, status)
      ensures leftStick == old(leftStick) && rightStick == old(rightStick)
      ensures triggers == old(triggers)
    {
      buttons := buttons.Updated(btn, status);
    }

    /** Both axes of the named stick are stored as given, without clamping. */
    method UpdateStick(stick: string, x: i32, y: i32)
      modifies this
      ensures leftStick == if stick == "stickLeft" then Stick(x, y) else old(leftStick)
      ensures rightStick == if stick == "stickRight" then Stick(x, y) else old(rightStick)
      ensures buttons == old(buttons) && triggers == old(triggers)
    {
      if stick == "stickLeft" {
        leftStick := leftStick.(x := x);
        leftStick := leftStick.(y := y);
      } else if stick == "stickRight" {
        rightStick := rightStick.(x := x);
        rightStick := rightStick.(y := y);
      }
    }

    method UpdateTrigger(trigger: string, value: u8)
      modifies this
      ensures triggers.lt == if trigger == "LT" then value else old(triggers.lt)
      ensures triggers.rt == if trigger == "RT" then value else old(triggers.rt)
      ensures buttons == old(buttons)
      ensures leftStick == old(leftStick) && rightStick == old(rightStick)
    {
      if trigger == "LT" {
        triggers := triggers.(lt := value);
      } else if trigger == "RT" {
        triggers := triggers.(rt := value);
      }
    }

    /**
     * `to_output_string`, less the JSON text: reads the state and changes nothing. The button
     * list is `EncodeButtons` of the flags; triggers and axes are copied
     * without truncation.
     */
    function ToSnapshot(): (s: Snapshot)
      reads this
      ensures s.buttons == EncodeButtons(buttons)
      ensures s.leftTrigger == triggers.lt && s.rightTrigger == triggers.rt
      ensures s.thumbLx == leftStick.x && s.thumbLy == leftStick.y
      ensures s.thumbRx == rightStick.x && s.thumbRy == rightStick.y
    {
      Snapshot(EncodeButtons(buttons), triggers.lt, triggers.rt,
               leftStick.x, leftStick.y, rightStick.x, rightStick.y)
    }
  }
}
