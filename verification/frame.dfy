/**
 One iteration of the `main` loop, with the camera, QR decoder and hand tracker
 replaced by their outputs (an optional payload, an optional fingertip point), the
 clock by an integer reading `now` per frame, and the handler by its boolean outcome.
 The phases run in the source's order: decode and retention, message expiry,
 then hit-test and dispatch.
 */
module Frame {
  import opened Wrappers
  import opened Classifier
  import opened Dispatch

  /** How long a decoded payload outlives the last frame that decoded it. */
  const RetentionWindow := 5
  /** How long a status message stays up. */
  const MessageLifetime := 3
  /** The minimum gap between two dispatches (`button_cooldown`). */
  const Cooldown := 2

  /** The fingertip in pixel coordinates. */
  datatype Point = Point(x: int, y: int)

  /** The strict hit test: points on the rectangle's border are outside. */
  predicate Inside(p: Point, r: Rect) {
    r.x1 < p.x < r.x2 && r.y1 < p.y < r.y2
  }

  /** The loop variables that survive from one frame to the next. */
  datatype FrameState = FrameState(
    slots: Slots,             // the nine payload variables
    buttons: seq<Button>,     // `button_list`
    qrTimeout: int,           // when a payload was last decoded
    buttonPressed: bool,
    pressedButton: string,    // label of the last dispatched button
    actionMessage: string,
    actionMessageTime: int,
    lastPressTime: int)       // `last_button_press_time`

  /** The values `main` starts with. */
  const Initial := FrameState(Cleared, [], 0, false, "", "", 0, 0)

  /** What the external collaborators deliver for one frame. */
  datatype Input = Input(decoded: Option<string>, pointer: Option<Point>, handlerOk: bool, now: int)

  /** The state after a frame, and the label of the button dispatched in it, if any. */
  datatype Outcome = Outcome(state: FrameState, dispatched: Option<string>)

  /** Decode and retention: a decoded payload (even an empty one) clears everything
      and stores its classification, restarting the retention window; without a
      decode the payload survives while the window is open and is cleared after. */
  function Detect(st: FrameState, decoded: Option<string>, now: int): FrameState {
    match decoded
    case Some(qr) =>
      var a := Classify(qr);
      st.(qrTimeout := now, slots := SlotsOf(a), buttons := ButtonsFor(a))
    case None =>
      if now - st.qrTimeout < RetentionWindow then st
      else st.(slots := Cleared, buttons := [])
  }

  /** Message expiry: an empty or stale message is reset to empty. */
  function ExpireMessage(st: FrameState, now: int): FrameState {
    if st.actionMessage != "" && now - st.actionMessageTime < MessageLifetime then st
    else st.(actionMessage := "")
  }

  /** The index of the first button under `p` (the `for ... break ... else` loop). */
  function FirstHit(buttons: seq<Button>, p: Point): (r: Option<nat>)
    ensures r.None? <==> forall i :: 0 <= i < |buttons| ==> !Inside(p, buttons[i].rect)
    ensures r.Some? ==> r.value < |buttons| && Inside(p, buttons[r.value].rect)
    ensures r.Some? ==> forall i :: 0 <= i < r.value ==> !Inside(p, buttons[i].rect)
    decreases |buttons|
  {
    if |buttons| == 0 then None
    else if Inside(p, buttons[0].rect) then Some(0)
    else match FirstHit(buttons[1..], p)
      case None => None
      case Some(i) => Some(i + 1)
  }

  /** Hit-test and dispatch: a fingertip over a button marks it pressed; the press
      dispatches only when more than `Cooldown` has passed since the last dispatch. */
  function HitTest(st: FrameState, pointer: Option<Point>, handlerOk: bool, now: int): Outcome {
    match pointer
    case None => Outcome(st.(buttonPressed := false), None)
    case Some(p) =>
      match FirstHit(st.buttons, p)
      case None => Outcome(st.(buttonPressed := false), None)
      case Some(i) =>
        var text := st.buttons[i].text;
        if now - st.lastPressTime > Cooldown then
          Outcome(st.(lastPressTime := now, pressedButton := text,
                      actionMessage := PerformAction(text, st.slots, handlerOk),
                      actionMessageTime := now, buttonPressed := true),
                  Some(text))
        else Outcome(st.(buttonPressed := true), None)
  }

  /** The message a frame leaves up when it dispatches nothing. */
  function Surviving(st: FrameState, now: int): string {
    ExpireMessage(st, now).actionMessage
  }

  /** One frame of the loop. */
  function Step(st: FrameState, inp: Input): (o: Outcome)
    // decode: the previous payload is replaced wholesale, even inside the window
    ensures inp.decoded.Some? ==>
      && ActionOf(o.state.slots) == Classify(inp.decoded.value)
      && o.state.slots == SlotsOf(Classify(inp.decoded.value))
      && o.state.buttons == ButtonsFor(Classify(inp.decoded.value))
      && o.state.qrTimeout == inp.now
    // retention: kept while the window is open, cleared once it has passed
    ensures inp.decoded.None? && inp.now - st.qrTimeout < RetentionWindow ==>
      o.state.slots == st.slots && o.state.buttons == st.buttons && o.state.qrTimeout == st.qrTimeout
    ensures inp.decoded.None? && inp.now - st.qrTimeout >= RetentionWindow ==>
      o.state.slots == Cleared && o.state.buttons == [] && o.state.qrTimeout == st.qrTimeout
    // cooldown: a press dispatches exactly when the last dispatch is more than 2 ago
    ensures o.dispatched.Some? <==> o.state.buttonPressed && inp.now - st.lastPressTime > Cooldown
    ensures o.dispatched.Some? ==>
      && o.state.lastPressTime == inp.now
      && o.state.pressedButton == o.dispatched.value
      && o.state.actionMessageTime == inp.now
      && o.state.actionMessage == PerformAction(o.dispatched.value, o.state.slots, inp.handlerOk)
    ensures o.dispatched.None? ==>
      && o.state.lastPressTime == st.lastPressTime
      && o.state.pressedButton == st.pressedButton
      && o.state.actionMessageTime == st.actionMessageTime
      && o.state.actionMessage == Surviving(st, inp.now)
  {
    var detected := Detect(st, inp.decoded, inp.now);
    HitTest(ExpireMessage(detected, inp.now), inp.pointer, inp.handlerOk, inp.now)
  }

  /** Hit-test: the button is pressed exactly when the fingertip is strictly inside
      one of the buttons on screen, and a dispatch names the first such button. */
  lemma StepHitTest(st: FrameState, inp: Input)
    ensures var o := Step(st, inp);
      && (o.state.buttonPressed <==>
            inp.pointer.Some? &&
            exists i :: 0 <= i < |o.state.buttons| && Inside(inp.pointer.value, o.state.buttons[i].rect))
      && (o.dispatched.Some? ==>
            exists i :: 0 <= i < |o.state.buttons| && Inside(inp.pointer.value, o.state.buttons[i].rect)
                        && o.dispatched.value == o.state.buttons[i].text)
  {
  }

  /** The loop-wide invariant: the slots describe at most one action, which is well
      formed, and the button list is exactly that action's button. */
  predicate Coherent(st: FrameState) {
    var a := ActionOf(st.slots);
    && st.slots == SlotsOf(a)
    && st.buttons == ButtonsFor(a)
    && (a.Some? ==> WellFormed(a.value))
  }

  /** In a coherent state at most one slot is set, there is one button per set
      slot, and every button sits at the fixed rectangle. */
  lemma CoherentExclusive(st: FrameState)
    requires Coherent(st)
    ensures SetCount(st.slots) <= 1
    ensures |st.buttons| == SetCount(st.slots)
    ensures forall i :: 0 <= i < |st.buttons| ==> st.buttons[i].rect == Rect(50, 50, 350, 150)
  {
  }

  lemma InitialCoherent()
    ensures Coherent(Initial)
  {
  }

  /** Every frame keeps the invariant. */
  lemma StepCoherent(st: FrameState, inp: Input)
    requires Coherent(st)
    ensures Coherent(Step(st, inp).state)
  {
  }

  /** A decode with a non-empty payload leaves exactly one slot set and one button,
      at the fixed rectangle and labelled for the payload's kind; an empty payload
      leaves none. */
  lemma DecodeSetsExactlyOne(st: FrameState, inp: Input)
    requires inp.decoded.Some?
    ensures var o := Step(st, inp);
      && (inp.decoded.value != "" ==>
            && SetCount(o.state.slots) == 1
            && |o.state.buttons| == 1
            && o.state.buttons[0] == Button(Label(Classify(inp.decoded.value).value), Rect(50, 50, 350, 150)))
      && (inp.decoded.value == "" ==> o.state.slots == Cleared && o.state.buttons == [])
  {
  }

  /** In a coherent state, a dispatch always runs the handler of the active action
      and shows that action's table message (never the empty fall-through). */
  lemma StepDispatchesActive(st: FrameState, inp: Input)
    requires Coherent(st)
    ensures var o := Step(st, inp);
      o.dispatched.Some? ==>
        && ActionOf(o.state.slots).Some?
        && o.dispatched.value == Label(ActionOf(o.state.slots).value)
        && o.state.actionMessage == Message(ActionOf(o.state.slots).value, inp.handlerOk)
  {
    var o := Step(st, inp);
    StepCoherent(st, inp);
    if o.dispatched.Some? {
      var a := ActionOf(o.state.slots);
      assert o.state.buttons == ButtonsFor(a);
      assert a.Some?;
      PerformActionMatchesTable(a.value, inp.handlerOk);
    }
  }

  /** Without a fingertip, nothing is pressed and nothing is dispatched. */
  lemma NoPointerNoPress(st: FrameState, inp: Input)
    requires inp.pointer.None?
    ensures !Step(st, inp).state.buttonPressed && Step(st, inp).dispatched.None?
  {
  }

  /** The result of running a sequence of frames: the final state and the clock
      readings of the frames that dispatched. */
  datatype Trace = Trace(final: FrameState, fires: seq<int>)

  function Run(st: FrameState, inputs: seq<Input>): Trace
    decreases |inputs|
  {
    if |inputs| == 0 then Trace(st, [])
    else
      var o := Step(st, inputs[0]);
      var rest := Run(o.state, inputs[1..]);
      Trace(rest.final, (if o.dispatched.Some? then [inputs[0].now] else []) + rest.fires)
  }

  /** Each clock reading in `fires` is more than `Cooldown` after the one before
      it, the first more than `Cooldown` after `last`. */
  predicate SpacedAfter(last: int, fires: seq<int>)
    decreases |fires|
  {
    |fires| == 0 || (fires[0] - last > Cooldown && SpacedAfter(fires[0], fires[1..]))
  }

  /** Dispatches over any run are spaced by more than `Cooldown`, starting from the
      starting state's last press, and the final state records the last dispatch. */
  lemma {:induction false} RunCooldown(st: FrameState, inputs: seq<Input>)
    ensures SpacedAfter(st.lastPressTime, Run(st, inputs).fires)
    ensures Run(st, inputs).final.lastPressTime ==
      if |Run(st, inputs).fires| == 0 then st.lastPressTime
      else Run(st, inputs).fires[|Run(st, inputs).fires| - 1]
    decreases |inputs|
  {
    if |inputs| > 0 {
      var o := Step(st, inputs[0]);
      StepPressTime(st, inputs[0]);
      RunCooldown(o.state, inputs[1..]);
      var rest := Run(o.state, inputs[1..]);
      var t := Run(st, inputs);
      if o.dispatched.Some? {
        assert t.fires == [inputs[0].now] + rest.fires;
        assert t.fires[1..] == rest.fires;
      } else {
        assert t.fires == rest.fires;
      }
    }
  }

  /** The spacing stated pairwise: consecutive dispatches are more than `Cooldown` apart. */
  lemma {:induction false} SpacedPairwise(last: int, fires: seq<int>)
    requires SpacedAfter(last, fires)
    ensures forall i :: 0 <= i < |fires| - 1 ==> fires[i + 1] - fires[i] > Cooldown
    ensures |fires| > 0 ==> fires[0] - last > Cooldown
    decreases |fires|
  {
    if |fires| > 0 {
      SpacedPairwise(fires[0], fires[1..]);
      forall i | 0 <= i < |fires| - 1
        ensures fires[i + 1] - fires[i] > Cooldown
      {
        if i > 0 {
          assert fires[i] == fires[1..][i - 1] && fires[i + 1] == fires[1..][i];
        }
      }
    }
  }

  /** The press-time bookkeeping of a single frame. */
  lemma StepPressTime(st: FrameState, inp: Input)
    ensures var o := Step(st, inp);
      && (o.dispatched.Some? ==> o.state.lastPressTime == inp.now && inp.now - st.lastPressTime > Cooldown)
      && (o.dispatched.None? ==> o.state.lastPressTime == st.lastPressTime)
  {
  }

  /** Frames without a decode whose clock stays inside the retention window keep
      the payload, the button and the window's start untouched. */
  lemma {:induction false} RunRetention(st: FrameState, inputs: seq<Input>)
    requires forall i :: 0 <= i < |inputs| ==> inputs[i].decoded.None?
    requires forall i :: 0 <= i < |inputs| ==> inputs[i].now - st.qrTimeout < RetentionWindow
    ensures Run(st, inputs).final.slots == st.slots
    ensures Run(st, inputs).final.buttons == st.buttons
    ensures Run(st, inputs).final.qrTimeout == st.qrTimeout
    decreases |inputs|
  {
    if |inputs| > 0 {
      var o := Step(st, inputs[0]);
      RunRetention(o.state, inputs[1..]);
    }
  }

  /** Coherence holds after any sequence of frames from any coherent state. */
  lemma {:induction false} RunCoherent(st: FrameState, inputs: seq<Input>)
    requires Coherent(st)
    ensures Coherent(Run(st, inputs).final)
    decreases |inputs|
  {
    if |inputs| > 0 {
      StepCoherent(st, inputs[0]);
      RunCoherent(Step(st, inputs[0]).state, inputs[1..]);
    }
  }
}
