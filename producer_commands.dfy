/**
 * The producer's invoke surface: three commands that each mutate the one
 * shared controller state and then emit the full-state snapshot on the
 * "send_to_server" event channel. The lock that makes "mutate, serialise,
 * emit" atomic becomes plain sequential execution of one method call.
 */
module ProducerCommands {
  import opened Base
  import opened Producer

  /** The event name every command emits on. */
  const SendToServer := "send_to_server"

  /** One event handed to the window: its name and its payload. */
  datatype Emission = Emission(event: string, payload: Snapshot)

  /** A command's return value: `Ok(())`, or the emit error turned into a string. */
  datatype CommandResult = Ok | Err(message: string)

  /** The application state the commands share. */
  class AppState {
    const gamepad: GamepadState
    /** Every event the window accepted, oldest first. */
    var emitted: seq<Emission>

    /** The state `run` installs: a default controller state and nothing emitted yet. */
    constructor ()
      ensures fresh(gamepad)
      ensures gamepad.buttons == NoButtons && forall id :: !gamepad.buttons.Get(id)
      ensures gamepad.leftStick == Stick(0, 0) && gamepad.rightStick == Stick(0, 0)
      ensures gamepad.triggers == Triggers(0, 0)
      ensures emitted == []
    {
      gamepad := new GamepadState();
      emitted := [];
    }

    /**
     * `window.emit("send_to_server", payload)` followed by `map_err`.
     * `failure` is the error the window reports, if any; a failed emit
     * delivers nothing and its error becomes the command's result.
     */
    method Emit(payload: Snapshot, failure: Option<string>) returns (r: CommandResult)
      modifies this`emitted
      ensures failure.None? ==> r == Ok && emitted == old(emitted) + [Emission(SendToServer, payload)]
      ensures failure.Some? ==> r == Err(failure.value) && emitted == old(emitted)
    {
      if failure.Some? {
        return Err(failure.value);
      }
      emitted := emitted + [Emission(SendToServer, payload)];
      r := Ok;
    }

    /**
     * `buttons_info`: apply `update_button`, then emit one snapshot of the
     * updated state. The mutation stays even when the emit fails.
     */
    method ButtonsInfo(btn: string, status: bool, failure: Option<string>) returns (r: CommandResult)
      modifies this`emitted, gamepad
      ensures gamepad.buttons == old(gamepad.buttons).Updated(btn, status)
      ensures gamepad.leftStick == old(gamepad.leftStick) && gamepad.rightStick == old(gamepad.rightStick)
      ensures gamepad.triggers == old(gamepad.triggers)
      ensures failure.None? ==> r == Ok && emitted == old(emitted) + [Emission(SendToServer, gamepad.ToSnapshot())]
      ensures failure.Some? ==> r == Err(failure.value) && emitted == old(emitted)
      ensures ButtonIdOf(btn) == None ==> gamepad.ToSnapshot() == old(gamepad.ToSnapshot())
    {
      gamepad.UpdateButton(btn, status);
      UpdateButtonEffect(old(gamepad.buttons), btn, status);
      r := Emit(gamepad.ToSnapshot(), failure);
    }

    /**
     * `stick_info`: apply `update_stick`, then emit one snapshot of the
     * updated state.
     */
    method StickInfo(stick: string, x: i32, y: i32, failure: Option<string>) returns (r: CommandResult)
      modifies this`emitted, gamepad
      ensures gamepad.leftStick == if stick == "stickLeft" then Stick(x, y) else old(gamepad.leftStick)
      ensures gamepad.rightStick == if stick == "stickRight" then Stick(x, y) else old(gamepad.rightStick)
      ensures gamepad.buttons == old(gamepad.buttons) && gamepad.triggers == old(gamepad.triggers)
      ensures failure.None? ==> r == Ok && emitted == old(emitted) + [Emission(SendToServer, gamepad.ToSnapshot())]
      ensures failure.Some? ==> r == Err(failure.value) && emitted == old(emitted)
      ensures stick != "stickLeft" && stick != "stickRight" ==>
                gamepad.ToSnapshot() == old(gamepad.ToSnapshot())
    {
      gamepad.UpdateStick(stick, x, y);
      r := Emit(gamepad.ToSnapshot(), failure);
    }

    /**
     * `trigger_info`: apply `update_trigger`, then emit one snapshot of the
     * updated state.
     */
    method TriggerInfo(trigger: string, value: u8, failure: Option<string>) returns (r: CommandResult)
      modifies this`emitted, gamepad
      ensures gamepad.triggers.lt == if trigger == "LT" then value else old(gamepad.triggers.lt)
      ensures gamepad.triggers.rt == if trigger == "RT" then value else old(gamepad.triggers.rt)
      ensures gamepad.buttons == old(gamepad.buttons)
      ensures gamepad.leftStick == old(gamepad.leftStick) && gamepad.rightStick == old(gamepad.rightStick)
      ensures failure.None? ==> r == Ok && emitted == old(emitted) + [Emission(SendToServer, gamepad.ToSnapshot())]
      ensures failure.Some? ==> r == Err(failure.value) && emitted == old(emitted)
      ensures trigger != "LT" && trigger != "RT" ==>
                gamepad.ToSnapshot() == old(gamepad.ToSnapshot())
    {
      gamepad.UpdateTrigger(trigger, value);
      r := Emit(gamepad.ToSnapshot(), failure);
    }
  }

  /** Pressing A on a fresh application emits one snapshot that lists A alone. */
  method PressA() returns (first: Snapshot)
    ensures first == Snapshot(["A"], 0, 0, 0, 0, 0, 0)
  {
    var app := new AppState();
    var pressed := app.ButtonsInfo("A", true, None);
    PressedA();
    first := app.emitted[0].payload;
  }

  /**
   * Mutations accumulate across commands: after pressing A and then moving
   * the left stick to (100, -50), the second snapshot still lists A and
   * carries the left stick at (100, -50), everything else at its default.
   */
  method PressThenMove() returns (last: Snapshot)
    ensures last == Snapshot(["A"], 0, 0, 100, -50, 0, 0)
  {
    var app := new AppState();
    var pressed := app.ButtonsInfo("A", true, None);
    var moved := app.StickInfo("stickLeft", 100, -50, None);
    PressedA();
    last := app.emitted[1].payload;
  }

  /** Pressing A on the default button set lists A alone. */
  lemma PressedA()
    ensures EncodeButtons(NoButtons.Updated("A", true)) == ["A"]
  {
    UpdateButtonEffect(NoButtons, "A", true);
    EncodeSingleButton(NoButtons.Updated("A", true), A);
  }

  /** Pressing and then releasing A on the default button set lists nothing. */
  lemma PressedThenReleasedA()
    ensures EncodeButtons(NoButtons.Updated("A", true).Updated("A", false)) == []
  {
    UpdateButtonEffect(NoButtons, "A", true);
    UpdateButtonEffect(NoButtons.Updated("A", true), "A", false);
    EncodeNoButtons(NoButtons.Updated("A", true).Updated("A", false));
  }
}
