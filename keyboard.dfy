/** The keyboard latch of src/input/keyboard.ts: which control keys are held,
    which were newly pressed since the last `consume`, and whether any key at
    all was newly pressed. Browser key events are data (`KeyEvent`); the DOM
    listeners that deliver them are not modelled. */
module Keyboard {
  import opened Types

  /** `CONTROL_CODES`: the keys the game reacts to. */
  const ControlCodes: set<string> := {"ArrowLeft", "ArrowRight", "ArrowUp", "Space", "KeyP", "KeyR", "KeyF"}

  /** The fields of a `KeyboardEvent` the handlers read. */
  datatype KeyEvent = KeyEvent(code: string, repeat: bool, metaKey: bool, ctrlKey: bool, altKey: bool)

  /** The three private fields of `KeyboardInput`, as a value. */
  datatype Latch = Latch(pressed: set<string>, edgePressed: set<string>, anyKeyEdge: bool)

  /** A fresh latch: nothing held, nothing pressed. */
  const EmptyLatch := Latch({}, {}, false)

  /** Only control keys are ever held or latched. */
  predicate LatchOk(l: Latch)
  {
    l.pressed <= ControlCodes && l.edgePressed <= ControlCodes
  }

  /** A key press that counts as a fresh press of some key: not an
      auto-repeat and without a meta, ctrl or alt modifier. */
  predicate FreshPress(e: KeyEvent)
  {
    !e.repeat && !e.metaKey && !e.ctrlKey && !e.altKey
  }

  /** `onKeyDown`: any fresh press raises the any-key edge; a control key is
      then held, and latched as newly pressed unless the event is an
      auto-repeat. Other keys change nothing else. */
  function KeyDown(l: Latch, e: KeyEvent): (r: Latch)
    ensures r.anyKeyEdge <==> l.anyKeyEdge || FreshPress(e)
    ensures e.code !in ControlCodes ==> r.pressed == l.pressed && r.edgePressed == l.edgePressed
    ensures e.code in ControlCodes ==> r.pressed == l.pressed + {e.code}
    ensures e.repeat ==> r.edgePressed == l.edgePressed && r.anyKeyEdge == l.anyKeyEdge
    ensures e.code in ControlCodes && !e.repeat ==> r.edgePressed == l.edgePressed + {e.code}
    ensures LatchOk(l) ==> LatchOk(r)
  {
    var any := l.anyKeyEdge || FreshPress(e);
    if e.code !in ControlCodes then l.(anyKeyEdge := any)
    else Latch(l.pressed + {e.code}, if e.repeat then l.edgePressed else l.edgePressed + {e.code}, any)
  }

  /** `onKeyUp`: a control key is no longer held; what was latched stays
      latched until the next consume. */
  function KeyUp(l: Latch, e: KeyEvent): (r: Latch)
    ensures e.code in ControlCodes ==> r.pressed == l.pressed - {e.code}
    ensures e.code !in ControlCodes ==> r.pressed == l.pressed
    ensures r.edgePressed == l.edgePressed && r.anyKeyEdge == l.anyKeyEdge
    ensures LatchOk(l) ==> LatchOk(r)
  {
    if e.code !in ControlCodes then l else l.(pressed := l.pressed - {e.code})
  }

  /** The input `consume` reports: the held controls from `pressed`, the
      one-shot controls from `edgePressed`, and the any-key edge. */
  function Report(l: Latch): (input: InputState)
    ensures input.rotateLeft <==> "ArrowLeft" in l.pressed
    ensures input.rotateRight <==> "ArrowRight" in l.pressed
    ensures input.thrust <==> "ArrowUp" in l.pressed
    ensures input.fire <==> "Space" in l.pressed
    ensures input.pausePressed <==> "KeyP" in l.edgePressed
    ensures input.restartPressed <==> "KeyR" in l.edgePressed
    ensures input.fullscreenPressed <==> "KeyF" in l.edgePressed
    ensures input.anyKeyPressed == l.anyKeyEdge
  {
    InputState("ArrowLeft" in l.pressed, "ArrowRight" in l.pressed, "ArrowUp" in l.pressed,
               "Space" in l.pressed, "KeyP" in l.edgePressed, "KeyR" in l.edgePressed,
               "KeyF" in l.edgePressed, l.anyKeyEdge)
  }

  /** What `consume` leaves: the held keys, and no edges. */
  function Cleared(l: Latch): (r: Latch)
    ensures r.pressed == l.pressed && r.edgePressed == {} && !r.anyKeyEdge
  {
    l.(edgePressed := {}, anyKeyEdge := false)
  }

  /** The edge part of an input is empty. */
  predicate NoEdges(input: InputState)
  {
    !input.pausePressed && !input.restartPressed && !input.fullscreenPressed && !input.anyKeyPressed
  }

  /** A second consume with no key events in between reports no edges, and
      the same held controls as the first. */
  lemma ConsumeTwice(l: Latch)
    ensures NoEdges(Report(Cleared(l)))
    ensures var first, second := Report(l), Report(Cleared(l));
            && second.rotateLeft == first.rotateLeft && second.rotateRight == first.rotateRight
            && second.thrust == first.thrust && second.fire == first.fire
  {
  }

  /** A control key pressed and released between two consumes is reported
      once as an edge, while it no longer reads as held: a quick tap of P, R
      or F is never lost, and a released arrow or space is not held. */
  lemma TapBetweenConsumes(l: Latch, code: string)
    requires code in ControlCodes
    ensures var after := KeyUp(KeyDown(l, KeyEvent(code, false, false, false, false)),
                               KeyEvent(code, false, false, false, false));
            && code !in after.pressed && code in after.edgePressed && after.anyKeyEdge
            && (code == "KeyP" ==> Report(after).pausePressed)
            && (code == "KeyR" ==> Report(after).restartPressed)
            && (code == "KeyF" ==> Report(after).fullscreenPressed)
            && (code == "Space" ==> !Report(after).fire)
            && NoEdges(Report(Cleared(after)))
  {
  }

  /** `KeyboardInput`, without its event target: the handlers are called
      directly with the events. */
  class KeyboardInput {
    var pressed: set<string>
    var edgePressed: set<string>
    var anyKeyEdge: bool

    ghost function State(): Latch
      reads this
    {
      Latch(pressed, edgePressed, anyKeyEdge)
    }

    ghost predicate Valid()
      reads this
    {
      LatchOk(State())
    }

    constructor ()
      ensures State() == EmptyLatch && Valid()
    {
      pressed := {};
      edgePressed := {};
      anyKeyEdge := false;
    }

    method OnKeyDown(event: KeyEvent)
      modifies this
      ensures State() == KeyDown(old(State()), event)
      ensures old(Valid()) ==> Valid()
    {
      if !event.repeat && !event.metaKey && !event.ctrlKey && !event.altKey {
        anyKeyEdge := true;
      }

      if event.code !in ControlCodes {
        return;
      }

      if !event.repeat {
        edgePressed := edgePressed + {event.code};
      }

      pressed := pressed + {event.code};
    }

    method OnKeyUp(event: KeyEvent)
      modifies this
      ensures State() == KeyUp(old(State()), event)
      ensures old(Valid()) ==> Valid()
    {
      if event.code !in ControlCodes {
        return;
      }

      pressed := pressed - {event.code};
    }

    method Consume() returns (input: InputState)
      modifies this
      ensures input == Report(old(State()))
      ensures State() == Cleared(old(State()))
      ensures old(Valid()) ==> Valid()
    {
      input := InputState(
        "ArrowLeft" in pressed,
        "ArrowRight" in pressed,
        "ArrowUp" in pressed,
        "Space" in pressed,
        "KeyP" in edgePressed,
        "KeyR" in edgePressed,
        "KeyF" in edgePressed,
        anyKeyEdge);

      edgePressed := {};
      anyKeyEdge := false;
    }
  }

  /** Two consumes in a row on a live keyboard: the second reports no edges
      and the same held controls. */
  method ConsumeAgain(keyboard: KeyboardInput) returns (first: InputState, second: InputState)
    modifies keyboard
    ensures NoEdges(second)
    ensures second.rotateLeft == first.rotateLeft && second.rotateRight == first.rotateRight
    ensures second.thrust == first.thrust && second.fire == first.fire
  {
    first := keyboard.Consume();
    second := keyboard.Consume();
  }
}
