/**
  The window's viewport state of `src/display.rs`: pixel dimensions, a target
  aspect ratio and the projection matrix derived from both, and the per-frame
  fold of the polled window events.

  Window creation, the GL context and buffer swapping are not modelled; the
  polled events are a parameter of `Refresh`.
 */
module Display {
  import opened Wrappers
  import opened Renderer

  datatype ElementState = Pressed | Released

  /** A virtual key code; only F3 is singled out by the terminal. */
  datatype Key = F3 | OtherKey(code: nat)

  /** The window events `refresh` distinguishes; `Ignored` stands for every other event. */
  datatype WindowEvent =
    | Closed
    | Resized(width: nat, height: nat)
    | KeyboardInput(state: ElementState, keycode: Option<Key>)
    | Ignored

  /** One `update_virtual_keycode(key, pressed)` call on the input state. */
  datatype KeyUpdate = KeyUpdate(key: Key, pressed: bool)

  /**
    The input-state collaborator, reduced to the key transitions recorded since
    its just-pressed and just-released lists were last cleared.
   */
  datatype Input = Input(updates: seq<KeyUpdate>)

  /** `was_just_pressed(key)`: a press of `key` was recorded since the last clear. */
  predicate WasJustPressed(input: Input, key: Key)
  {
    KeyUpdate(key, true) in input.updates
  }

  /** Some event of the sequence asks to close the window. */
  predicate HasClose(events: seq<WindowEvent>)
  {
    exists i | 0 <= i < |events| :: events[i].Closed?
  }

  /** The dimensions of the last `Resized` event, if there is one. */
  function LastResize(events: seq<WindowEvent>): Option<(nat, nat)>
  {
    if events == [] then None
    else
      match events[|events| - 1]
      case Resized(w, h) => Some((w, h))
      case _ => LastResize(events[..|events| - 1])
  }

  /** The key transitions forwarded to the input state, in event order. */
  function KeyUpdates(events: seq<WindowEvent>): seq<KeyUpdate>
  {
    if events == [] then []
    else
      var e := events[|events| - 1];
      KeyUpdates(events[..|events| - 1]) +
        if e.KeyboardInput? && e.keycode.Some? then [KeyUpdate(e.keycode.value, e.state == Pressed)] else []
  }

  class Display {
    const gl: Gl
    var width: nat
    var height: nat
    var aspectRatio: real
    var projMatrix: Matrix
    var input: Input

    /** The projection matrix is always the one built from the current dimensions and aspect ratio. */
    ghost predicate Valid()
      reads this
    {
      projMatrix == ProjMatrix(width, height, aspectRatio)
    }

    /**
      The state `Display::new` sets up: the requested dimensions, their ratio as the
      aspect ratio, the matching projection and an empty input state. No viewport
      call is issued.
     */
    constructor (width: nat, height: nat, gl: Gl)
      requires height > 0
      ensures Valid()
      ensures this.width == width && this.height == height
      ensures aspectRatio == width as real / height as real
      ensures input == Input([])
      ensures this.gl == gl
    {
      this.gl := gl;
      this.width := width;
      this.height := height;
      aspectRatio := width as real / height as real;
      projMatrix := ProjMatrix(width, height, width as real / height as real);
      input := Input([]);
    }

    /** `get_aspect_ratio`: the target ratio the projection is built for. */
    function GetAspectRatio(): (r: real)
      reads this
      ensures Valid() ==> projMatrix == ProjMatrix(width, height, r)
    {
      aspectRatio
    }

    /** `update_view`: rebuild the projection and re-issue the viewport for the current dimensions. */
    method UpdateView()
      modifies this`projMatrix, gl
      ensures Valid()
      ensures gl.calls == old(gl.calls) + [UpdateViewport(width, height)]
    {
      projMatrix := ProjMatrix(width, height, aspectRatio);
      gl.UpdateViewport(width, height);
    }

    /** `set_aspect_ratio`: the new ratio is read back, the dimensions stay, and the viewport is re-issued. */
    method SetAspectRatio(ratio: real)
      requires Valid()
      modifies this`aspectRatio, this`projMatrix, gl
      ensures Valid()
      ensures GetAspectRatio() == ratio
      ensures projMatrix == ProjMatrix(width, height, ratio)
      ensures gl.calls == old(gl.calls) + [UpdateViewport(width, height)]
    {
      aspectRatio := ratio;
      UpdateView();
    }

    /**
      The state a refresh with the polled `events` leaves: the projection still
      matches; the input holds the forwarded key transitions; the aspect ratio is
      kept; the last resize, if any, sets the dimensions and issues one viewport
      call, and without one nothing else changes.
     */
    twostate predicate Refreshed(events: seq<WindowEvent>)
      reads this, gl
    {
      && Valid()
      && input == Input(KeyUpdates(events))
      && aspectRatio == old(aspectRatio)
      && (LastResize(events).None? ==>
            && width == old(width) && height == old(height) && projMatrix == old(projMatrix)
            && gl.calls == old(gl.calls))
      && (LastResize(events).Some? ==>
            && (width, height) == LastResize(events).value
            && gl.calls == old(gl.calls) + [UpdateViewport(width, height)])
    }

    /**
      `refresh`: clear the just-lists of the input state, then fold the polled
      events. The result is false exactly when a close was requested; only the
      last resize is applied, and without one neither the dimensions nor the
      projection change and no viewport call is made; keyboard events with a key
      code are forwarded in order.
     */
    method Refresh(events: seq<WindowEvent>) returns (running: bool)
      requires Valid()
      modifies this`width, this`height, this`projMatrix, this`input, gl
      ensures running <==> !HasClose(events)
      ensures Refreshed(events)
    {
      running := true;
      var dimensions: Option<(nat, nat)> := None;
      input := Input([]);

      var i := 0;
      while i < |events|
        invariant 0 <= i <= |events|
        invariant running <==> !HasClose(events[..i])
        invariant dimensions == LastResize(events[..i])
        invariant input == Input(KeyUpdates(events[..i]))
        invariant unchanged(this`width, this`height, this`projMatrix, gl)
      {
        assert events[..i + 1][..i] == events[..i];
        match events[i] {
          case Closed =>
            running := false;
          case Resized(w, h) =>
            dimensions := Some((w, h));
          case KeyboardInput(state, keycode) =>
            if keycode.Some? {
              input := Input(input.updates + [KeyUpdate(keycode.value, state == Pressed)]);
            }
          case Ignored =>
        }
        i := i + 1;
      }
      assert events[..i] == events;

      if dimensions.Some? {
        width := dimensions.value.0;
        height := dimensions.value.1;
        UpdateView();
      }
    }
  }

  // ---------------------------------------------------------------------------
  // Properties of the event fold

  /** `LastResize` finds a resize event and no later one, and finds none exactly when there is none. */
  lemma {:induction false} LastResizeIsLast(events: seq<WindowEvent>)
    ensures LastResize(events).None? <==> forall i | 0 <= i < |events| :: !events[i].Resized?
    ensures LastResize(events).Some? ==>
      exists i | 0 <= i < |events| ::
        && events[i] == Resized(LastResize(events).value.0, LastResize(events).value.1)
        && forall j | i < j < |events| :: !events[j].Resized?
  {
    if events != [] {
      var n := |events| - 1;
      var prefix := events[..n];
      LastResizeIsLast(prefix);
      assert forall i | 0 <= i < n :: prefix[i] == events[i];
      if !events[n].Resized? && LastResize(events).Some? {
        var i :| 0 <= i < n && prefix[i] == Resized(LastResize(prefix).value.0, LastResize(prefix).value.1)
                 && forall j | i < j < n :: !prefix[j].Resized?;
        assert events[i] == prefix[i];
      } else if !events[n].Resized? {
        assert LastResize(events) == LastResize(prefix);
      }
    }
  }

  /** The forwarded transitions of two consecutive batches of events are those of each batch, in order. */
  lemma {:induction false} KeyUpdatesAppend(a: seq<WindowEvent>, b: seq<WindowEvent>)
    ensures KeyUpdates(a + b) == KeyUpdates(a) + KeyUpdates(b)
  {
    if b != [] {
      var n := |b| - 1;
      assert (a + b)[..|a + b| - 1] == a + b[..n];
      KeyUpdatesAppend(a, b[..n]);
    } else {
      assert a + b == a;
    }
  }

  /**
    A transition is forwarded exactly when some keyboard event carries that key
    code, with `pressed` telling whether its state is `Pressed`.
   */
  lemma {:induction false} KeyUpdatesFromKeyboardEvents(events: seq<WindowEvent>, u: KeyUpdate)
    ensures u in KeyUpdates(events) <==>
      exists i | 0 <= i < |events| ::
        events[i].KeyboardInput? && events[i].keycode == Some(u.key) && (events[i].state == Pressed) == u.pressed
  {
    if events != [] {
      var n := |events| - 1;
      var prefix := events[..n];
      KeyUpdatesFromKeyboardEvents(prefix, u);
      assert forall i | 0 <= i < n :: prefix[i] == events[i];
      if u in KeyUpdates(prefix) {
        var i :| 0 <= i < n && prefix[i].KeyboardInput? && prefix[i].keycode == Some(u.key)
                 && (prefix[i].state == Pressed) == u.pressed;
        assert events[i] == prefix[i];
      }
    }
  }
}
