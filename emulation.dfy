/**
 * The consumer side: a virtual Xbox 360 pad that receives wire snapshots
 * and rebuilds its report from each one. The report's button word is the
 * XInput `wButtons` layout, one bit per button; the driver call that hands
 * the report to the bus becomes an append to an `updates` log.
 */
module Emulation {
  import opened Base
  import Producer

  /** The twelve buttons the consumer recognises by name. */
  datatype XButton = Up | Down | Left | Right | Start | Back | LB | RB | A | B | X | Y

  /** Each button's bit in the XInput button word. */
  function Flag(b: XButton): bv16
  {
    match b
    case Up => 0x0001
    case Down => 0x0002
    case Left => 0x0004
    case Right => 0x0008
    case Start => 0x0010
    case Back => 0x0020
    case LB => 0x0100
    case RB => 0x0200
    case A => 0x1000
    case B => 0x2000
    case X => 0x4000
    case Y => 0x8000
  }

  /** The union of all twelve flags: the only bits the consumer ever sets. */
  const AllFlags: bv16 := 0xF33F

  /** The flags are twelve distinct single bits, all inside `AllFlags`. */
  lemma FlagsDistinct(b: XButton, c: XButton)
    ensures Flag(b) & AllFlags == Flag(b) && Flag(b) != 0
    ensures b != c ==> Flag(b) & Flag(c) == 0
  {
  }

  /** The wire name the consumer matches for each button. */
  function Name(b: XButton): string
  {
    match b
    case Up => "UP"
    case Down => "DOWN"
    case Left => "LEFT"
    case Right => "RIGHT"
    case Start => "START"
    case Back => "BACK"
    case LB => "LB"
    case RB => "RB"
    case A => "A"
    case B => "B"
    case X => "X"
    case Y => "Y"
  }

  /** The string match in the decode loop: which button, if any, a name denotes. */
  function Recognise(name: string): (r: Option<XButton>)
    ensures forall b :: r == Some(b) <==> name == Name(b)
  {
    if name == "A" then Some(A)
    else if name == "B" then Some(B)
    else if name == "X" then Some(X)
    else if name == "Y" then Some(Y)
    else if name == "UP" then Some(Up)
    else if name == "DOWN" then Some(Down)
    else if name == "LEFT" then Some(Left)
    else if name == "RIGHT" then Some(Right)
    else if name == "LB" then Some(LB)
    else if name == "RB" then Some(RB)
    else if name == "START" then Some(Start)
    else if name == "BACK" then Some(Back)
    else None
  }

  /** The two names the producer sends that the consumer has no button for. */
  lemma SelectAndHomeUnrecognised()
    ensures Recognise("SELECT") == None && Recognise("HOME") == None
  {
  }

  /** The decoded wire record: button names, two u8 triggers, four i16 axes. */
  datatype WireState = WireState(
    buttons: seq<string>,
    leftTrigger: u8, rightTrigger: u8,
    thumbLx: i16, thumbLy: i16, thumbRx: i16, thumbRy: i16)

  /** The report handed to the driver. */
  datatype XGamepad = XGamepad(
    buttons: bv16,
    leftTrigger: u8, rightTrigger: u8,
    thumbLx: i16, thumbLy: i16, thumbRx: i16, thumbRy: i16)

  /** The report a new virtual pad starts with: UP held, everything else at zero. */
  const InitialGamepad := XGamepad(Flag(Up), 0, 0, 0, 0, 0, 0)

  /** The bit one name contributes: its flag when recognised, nothing otherwise. */
  function FlagOf(name: string): bv16
  {
    match Recognise(name)
    case Some(b) => Flag(b)
    case None => 0
  }

  /** The button word the decode loop builds: zero, then OR in each name's flag in list order. */
  function ButtonWord(names: seq<string>): bv16
  {
    if names == [] then 0 else ButtonWord(names[..|names| - 1]) | FlagOf(names[|names| - 1])
  }

  /** Or-ing two words sets a masked bit exactly when either word has it. */
  lemma OrMask(w: bv16, f: bv16, m: bv16)
    ensures (w | f) & m != 0 <==> w & m != 0 || f & m != 0
  {
  }

  /** Or-ing two words that are clear under a mask leaves the result clear under it. */
  lemma OrClear(w: bv16, f: bv16, m: bv16)
    requires w & m == 0 && f & m == 0
    ensures (w | f) & m == 0
  {
  }

  /** A name's flag holds exactly the bit of the button it denotes, and nothing outside the twelve flags. */
  lemma FlagOfBits(name: string, b: XButton)
    ensures FlagOf(name) & Flag(b) != 0 <==> name == Name(b)
    ensures FlagOf(name) & !AllFlags == 0
  {
    match Recognise(name)
    case Some(c) => FlagsDistinct(c, b);
    case None =>
  }

  /**
   * Two words inside the twelve flags that agree on every flag are equal:
   * a word is determined by which buttons it holds.
   */
  lemma WordsAgree(w1: bv16, w2: bv16)
    requires w1 & !AllFlags == 0 && w2 & !AllFlags == 0
    requires forall b :: w1 & Flag(b) != 0 <==> w2 & Flag(b) != 0
    ensures w1 == w2
  {
    assert Flag(Up) == 0x0001 && Flag(Down) == 0x0002 && Flag(Left) == 0x0004 && Flag(Right) == 0x0008;
    assert Flag(Start) == 0x0010 && Flag(Back) == 0x0020 && Flag(LB) == 0x0100 && Flag(RB) == 0x0200;
    assert Flag(A) == 0x1000 && Flag(B) == 0x2000 && Flag(X) == 0x4000 && Flag(Y) == 0x8000;
  }

  /** One button's bit in the decoded word is set exactly when its name is in the list. */
  lemma {:induction false} ButtonWordBit(names: seq<string>, b: XButton)
    ensures ButtonWord(names) & Flag(b) != 0 <==> Name(b) in names
  {
    if names != [] {
      var init, n := names[..|names| - 1], names[|names| - 1];
      assert names == init + [n];
      ButtonWordBit(init, b);
      OrMask(ButtonWord(init), FlagOf(n), Flag(b));
      FlagOfBits(n, b);
    }
  }

  /** The decoded word never carries a bit outside the twelve flags. */
  lemma {:induction false} ButtonWordInside(names: seq<string>)
    ensures ButtonWord(names) & !AllFlags == 0
  {
    if names != [] {
      var init, n := names[..|names| - 1], names[|names| - 1];
      ButtonWordInside(init);
      FlagOfBits(n, A);
      OrClear(ButtonWord(init), FlagOf(n), !AllFlags);
    }
  }

  /**
   * The decoded button word has a button's bit set exactly when that
   * button's name is in the list, and carries no bit outside the twelve flags.
   */
  lemma ButtonWordBits(names: seq<string>)
    ensures forall b :: ButtonWord(names) & Flag(b) != 0 <==> Name(b) in names
    ensures ButtonWord(names) & !AllFlags == 0
  {
    forall b
      ensures ButtonWord(names) & Flag(b) != 0 <==> Name(b) in names
    {
      ButtonWordBit(names, b);
    }
    ButtonWordInside(names);
  }

  /**
   * Two lists that mention the same recognised names give the same word,
   * whatever their order, repetitions or unrecognised entries.
   */
  lemma ButtonWordSameNames(names: seq<string>, others: seq<string>)
    requires forall b :: Name(b) in names <==> Name(b) in others
    ensures ButtonWord(names) == ButtonWord(others)
  {
    ButtonWordBits(names);
    ButtonWordBits(others);
    WordsAgree(ButtonWord(names), ButtonWord(others));
  }

  /** An unrecognised name, SELECT and HOME included, contributes no bit wherever it appears. */
  lemma UnrecognisedNameIgnored(front: seq<string>, n: string, back: seq<string>)
    requires Recognise(n) == None
    ensures ButtonWord(front + [n] + back) == ButtonWord(front + back)
  {
    forall b
      ensures Name(b) in front + [n] + back <==> Name(b) in front + back
    {
      assert Name(b) in front + [n] + back <==> Name(b) in front || Name(b) == n || Name(b) in back;
    }
    ButtonWordSameNames(front + [n] + back, front + back);
  }

  /**
   * The report after one delivery: a failed parse keeps the old report; a
   * parsed snapshot replaces the button word and every analogue value.
   */
  function Apply(g: XGamepad, parsed: Option<WireState>): XGamepad
  {
    match parsed
    case None => g
    case Some(s) =>
      XGamepad(ButtonWord(s.buttons), s.leftTrigger, s.rightTrigger,
               s.thumbLx, s.thumbLy, s.thumbRx, s.thumbRy)
  }

  /**
   * A parsed snapshot determines the whole report, independent of the
   * report before it, and applying it a second time changes nothing.
   */
  lemma ApplyFullReplace(g: XGamepad, h: XGamepad, s: WireState)
    ensures Apply(g, Some(s)) == Apply(h, Some(s))
    ensures Apply(Apply(g, Some(s)), Some(s)) == Apply(g, Some(s))
    ensures Apply(g, Some(s)).leftTrigger == s.leftTrigger && Apply(g, Some(s)).rightTrigger == s.rightTrigger
    ensures Apply(g, Some(s)).thumbLx == s.thumbLx && Apply(g, Some(s)).thumbLy == s.thumbLy
    ensures Apply(g, Some(s)).thumbRx == s.thumbRx && Apply(g, Some(s)).thumbRy == s.thumbRy
  {
  }

  /** Reports after a stream of deliveries, one per delivery, oldest first. */
  function ApplyAll(g: XGamepad, deliveries: seq<Option<WireState>>): XGamepad
  {
    if deliveries == [] then g else Apply(ApplyAll(g, deliveries[..|deliveries| - 1]), deliveries[|deliveries| - 1])
  }

  /** The driver updates a stream of deliveries issues: one per parsed snapshot. */
  function UpdatesOf(g: XGamepad, deliveries: seq<Option<WireState>>): seq<XGamepad>
  {
    if deliveries == [] then []
    else
      var init := deliveries[..|deliveries| - 1];
      UpdatesOf(g, init) + if deliveries[|deliveries| - 1].Some? then [ApplyAll(g, deliveries)] else []
  }

  /** The last snapshot that parsed, if any. */
  function LastParsed(deliveries: seq<Option<WireState>>): Option<WireState>
  {
    if deliveries == [] then None
    else if deliveries[|deliveries| - 1].Some? then deliveries[|deliveries| - 1]
    else LastParsed(deliveries[..|deliveries| - 1])
  }

  /** The number of deliveries that parsed. */
  function ParsedCount(deliveries: seq<Option<WireState>>): nat
  {
    if deliveries == [] then 0
    else ParsedCount(deliveries[..|deliveries| - 1]) + if deliveries[|deliveries| - 1].Some? then 1 else 0
  }

  /**
   * After any stream the report is what the last parsed snapshot alone
   * makes of the starting report; one driver update is issued per parsed
   * snapshot, and the last update carries the final report.
   */
  lemma {:induction false} ApplyAllLastWins(g: XGamepad, deliveries: seq<Option<WireState>>)
    ensures ApplyAll(g, deliveries) == Apply(g, LastParsed(deliveries))
    ensures |UpdatesOf(g, deliveries)| == ParsedCount(deliveries)
    ensures UpdatesOf(g, deliveries) != [] ==> UpdatesOf(g, deliveries)[|UpdatesOf(g, deliveries)| - 1] == ApplyAll(g, deliveries)
  {
    if deliveries != [] {
      var init, last := deliveries[..|deliveries| - 1], deliveries[|deliveries| - 1];
      ApplyAllLastWins(g, init);
      if last.Some? {
        ApplyFullReplace(ApplyAll(g, init), g, last.value);
      }
    }
  }

  /** The consumer's one virtual pad. */
  class VirtualGamepad {
    /** The report most recently built. */
    var gamepad: XGamepad
    /** Every report handed to the driver, oldest first. */
    var updates: seq<XGamepad>

    /** A pad plugged into the bus with its initial report; nothing sent yet. */
    constructor ()
      ensures gamepad == InitialGamepad && updates == []
      ensures gamepad.buttons & Flag(Up) != 0
      ensures forall b :: b != Up ==> gamepad.buttons & Flag(b) == 0
    {
      gamepad := InitialGamepad;
      updates := [];
      forall b | b != Up
        ensures InitialGamepad.buttons & Flag(b) == 0
      {
        FlagsDistinct(Up, b);
      }
    }

    /** Hold A and X, keep the analogue values, and send the report. */
    method PressButtonA()
      modifies this
      ensures gamepad == old(gamepad).(buttons := Flag(A) | Flag(X))
      ensures updates == old(updates) + [gamepad]
    {
      gamepad := gamepad.(buttons := Flag(A) | Flag(X));
      updates := updates + [gamepad];
    }

    /**
     * Handle one delivered message. `parsed` is the outcome of decoding it:
     * `None` when the text is not a valid wire record, in which case nothing
     * changes and nothing is sent.
     */
    method UseController(parsed: Option<WireState>)
      modifies this
      ensures gamepad == Apply(old(gamepad), parsed)
      ensures updates == old(updates) + if parsed.Some? then [gamepad] else []
    {
      if parsed.None? {
        return;
      }
      var state := parsed.value;
      gamepad := gamepad.(buttons := 0);
      for i := 0 to |state.buttons|
        invariant gamepad.buttons == ButtonWord(state.buttons[..i])
        invariant updates == old(updates)
      {
        assert state.buttons[..i + 1][..i] == state.buttons[..i];
        gamepad := gamepad.(buttons := gamepad.buttons | FlagOf(state.buttons[i]));
      }
      assert state.buttons[..|state.buttons|] == state.buttons;
      gamepad := gamepad.(leftTrigger := state.leftTrigger, rightTrigger := state.rightTrigger);
      gamepad := gamepad.(thumbLx := state.thumbLx, thumbLy := state.thumbLy);
      gamepad := gamepad.(thumbRx := state.thumbRx, thumbRy := state.thumbRy);
      updates := updates + [gamepad];
    }

    /** Handle each delivered message in turn. */
    method StartReceiving(deliveries: seq<Option<WireState>>)
      modifies this
      ensures gamepad == ApplyAll(old(gamepad), deliveries)
      ensures updates == old(updates) + UpdatesOf(old(gamepad), deliveries)
    {
      for i := 0 to |deliveries|
        invariant gamepad == ApplyAll(old(gamepad), deliveries[..i])
        invariant updates == old(updates) + UpdatesOf(old(gamepad), deliveries[..i])
      {
        assert deliveries[..i + 1][..i] == deliveries[..i];
        UseController(deliveries[i]);
      }
      assert deliveries[..|deliveries|] == deliveries;
    }
  }

  /** The producer button each consumer button is named after. */
  function Counterpart(b: XButton): (id: Producer.ButtonId)
    ensures Producer.Name(id) == Name(b)
  {
    match b
    case Up => Producer.Up
    case Down => Producer.Down
    case Left => Producer.Left
    case Right => Producer.Right
    case Start => Producer.Start
    case Back => Producer.Back
    case LB => Producer.LB
    case RB => Producer.RB
    case A => Producer.A
    case B => Producer.B
    case X => Producer.X
    case Y => Producer.Y
  }

  /**
   * The producer's snapshot carried across the wire. The producer's axes
   * are i32 and the consumer's are i16, so only a snapshot whose axes fit
   * has a wire form.
   */
  function Carried(s: Producer.Snapshot): (w: Option<WireState>)
    ensures w.Some? <==> FitsI16(s.thumbLx) && FitsI16(s.thumbLy) && FitsI16(s.thumbRx) && FitsI16(s.thumbRy)
    ensures w.Some? ==> w.value.buttons == s.buttons && w.value.leftTrigger == s.leftTrigger
                        && w.value.rightTrigger == s.rightTrigger
    ensures w.Some? ==> w.value.thumbLx == s.thumbLx && w.value.thumbLy == s.thumbLy
                        && w.value.thumbRx == s.thumbRx && w.value.thumbRy == s.thumbRy
  {
    if FitsI16(s.thumbLx) && FitsI16(s.thumbLy) && FitsI16(s.thumbRx) && FitsI16(s.thumbRy) then
      Some(WireState(s.buttons, s.leftTrigger, s.rightTrigger, s.thumbLx, s.thumbLy, s.thumbRx, s.thumbRy))
    else None
  }

  /** Whether an i32 value is also an i16 value. */
  predicate FitsI16(v: int)
  {
    -0x8000 <= v < 0x8000
  }

  /**
   * One shared button across the wire: its bit in the word decoded from the
   * producer's button list is set exactly when the producer's flag was true.
   */
  lemma SharedBit(pressed: Producer.Buttons, b: XButton)
    ensures ButtonWord(Producer.EncodeButtons(pressed)) & Flag(b) != 0 <==> pressed.Get(Counterpart(b))
  {
    ButtonWordBit(Producer.EncodeButtons(pressed), b);
  }

  /**
   * Producer to consumer: a snapshot whose axes fit in i16 crosses the
   * wire, and the report decoded from it holds the word built from the
   * snapshot's own button list and every trigger and axis value unchanged.
   * Together with `SharedBit`, each of the twelve shared buttons is held
   * exactly when the producer's flag for it was true.
   */
  lemma RoundTrip(g: XGamepad, s: Producer.Snapshot)
    requires FitsI16(s.thumbLx) && FitsI16(s.thumbLy) && FitsI16(s.thumbRx) && FitsI16(s.thumbRy)
    ensures Carried(s).Some?
    ensures Apply(g, Carried(s)).buttons == ButtonWord(s.buttons)
    ensures Apply(g, Carried(s)).leftTrigger == s.leftTrigger && Apply(g, Carried(s)).rightTrigger == s.rightTrigger
    ensures Apply(g, Carried(s)).thumbLx == s.thumbLx && Apply(g, Carried(s)).thumbLy == s.thumbLy
    ensures Apply(g, Carried(s)).thumbRx == s.thumbRx && Apply(g, Carried(s)).thumbRy == s.thumbRy
  {
  }

  /** A list in which no name is recognised decodes to the empty word. */
  lemma {:induction false} ButtonWordNoneRecognised(names: seq<string>)
    requires forall n :: n in names ==> FlagOf(n) == 0
    ensures ButtonWord(names) == 0
  {
    if names != [] {
      var init := names[..|names| - 1];
      assert forall n :: n in init ==> n in names;
      ButtonWordNoneRecognised(init);
    }
  }

  /**
   * SELECT and HOME held on the producer are listed in its snapshot but
   * reach the consumer as no button at all.
   */
  lemma SelectAndHomeDropped()
    ensures var names := Producer.EncodeButtons(Producer.NoButtons.(select := true, home := true));
      names != [] && ButtonWord(names) == 0
  {
    var pressed := Producer.NoButtons.(select := true, home := true);
    assert pressed.Get(Producer.Select);
    var names := Producer.EncodeButtons(pressed);
    forall n | n in names
      ensures FlagOf(n) == 0
    {
      var id := Producer.ButtonIdOf(n).value;
      assert n == Producer.Name(id);
      assert id == Producer.Select || id == Producer.Home;
      SelectAndHomeUnrecognised();
      assert n == "SELECT" || n == "HOME";
    }
    ButtonWordNoneRecognised(names);
  }
}
