/**
  The render orchestration of `src/terminal.rs`: the frame counter, the choice
  between the normal and the debug shader programs, the per-frame refresh and the
  order of the graphics calls `draw` and `draw_multiple` issue.

  The clock is a parameter (nanoseconds since an arbitrary origin); the text
  buffers are reduced to their aspect ratio and their two optional meshes.
 */
module Terminal {
  import opened Wrappers
  import opened Renderer
  import opened Display
  import Font

  // ---------------------------------------------------------------------------
  // Frame counter

  /** One second, in the nanoseconds the clock counts. */
  const Second: int := 1_000_000_000

  /** The frame counter's state: the frames since the last check, its time, and the last committed count. */
  datatype Tally = Tally(frames: nat, lastCheck: int, fps: nat)

  /** One `FrameCounter::update` at time `now`. */
  function Tick(t: Tally, now: int): Tally
  {
    if now - t.lastCheck > Second then Tally(0, now, t.frames + 1)
    else t.(frames := t.frames + 1)
  }

  /** The counter after one update at each of `times`, in order. */
  function Run(t: Tally, times: seq<int>): Tally
  {
    if times == [] then t
    else Tick(Run(t, times[..|times| - 1]), times[|times| - 1])
  }

  /**
    Updates no later than one second after the last check commit nothing: the
    tally counts them and the reported rate and the check time stay.
   */
  lemma {:induction false} UpdatesWithinSecondCommitNothing(t: Tally, times: seq<int>)
    requires forall i | 0 <= i < |times| :: times[i] - t.lastCheck <= Second
    ensures Run(t, times) == t.(frames := t.frames + |times|)
  {
    if times != [] {
      UpdatesWithinSecondCommitNothing(t, times[..|times| - 1]);
    }
  }

  /**
    A new counter reports 0 through its first second; the first update more than
    one second after its creation commits every frame so far, that one included,
    and starts a new tally.
   */
  lemma FirstCommit(start: int, times: seq<int>, now: int)
    requires forall i | 0 <= i < |times| :: times[i] - start <= Second
    requires now - start > Second
    ensures Run(Tally(0, start, 0), times).fps == 0
    ensures Run(Tally(0, start, 0), times + [now]) == Tally(0, now, |times| + 1)
  {
    UpdatesWithinSecondCommitNothing(Tally(0, start, 0), times);
    assert (times + [now])[..|times|] == times;
  }

  class FrameCounter {
    var frames: nat
    var lastCheck: int
    var fps: nat

    function State(): Tally
      reads this
    {
      Tally(frames, lastCheck, fps)
    }

    /** `FrameCounter::new` at time `now`. */
    constructor (now: int)
      ensures State() == Tally(0, now, 0)
    {
      frames := 0;
      lastCheck := now;
      fps := 0;
    }

    /**
      `FrameCounter::update` at time `now`: count the frame, and when more than a
      second has passed since the last check, commit the count and start again.
      The clock must not run backwards (the source unwraps the elapsed time).
     */
    method Update(now: int)
      requires now >= lastCheck
      modifies this
      ensures State() == Tick(old(State()), now)
    {
      frames := frames + 1;
      if now - lastCheck > Second {
        fps := frames;
        lastCheck := now;
        frames := 0;
      }
    }

    /** `get_fps`: the count committed at the last check, 0 before the first one. */
    function GetFps(): (r: nat)
      reads this
      ensures r == State().fps
    {
      fps
    }
  }

  // ---------------------------------------------------------------------------
  // Draw sequencing

  /** A text buffer as drawing sees it: its aspect ratio and its meshes, absent until it is flushed. */
  datatype TextBuffer = TextBuffer(aspectRatio: real, mesh: Option<Mesh>, backgroundMesh: Option<Mesh>)

  /** Both meshes are present, so the buffer is drawn. */
  predicate Ready(b: TextBuffer)
  {
    b.mesh.Some? && b.backgroundMesh.Some?
  }

  /** What drawing needs from the terminal: the window size, the aspect-ratio policy and the selected programs. */
  datatype DrawSetup = DrawSetup(width: nat, height: nat, bufferRatio: bool, background: Program, foreground: Program)

  /** The buffer's ratio replaces the current one when the terminal takes its ratio from the buffer and they differ. */
  function TargetRatio(s: DrawSetup, current: real, b: TextBuffer): real
  {
    if s.bufferRatio && b.aspectRatio != current then b.aspectRatio else current
  }

  /** The viewport call a change of aspect ratio issues before a buffer is drawn. */
  function RatioCalls(s: DrawSetup, current: real, b: TextBuffer): seq<Call>
  {
    if s.bufferRatio && b.aspectRatio != current then [UpdateViewport(s.width, s.height)] else []
  }

  /** The background draw and then the foreground draw of a ready buffer, through the projection for `ratio`. */
  function LayerCalls(s: DrawSetup, ratio: real, b: TextBuffer): seq<Call>
    requires Ready(b)
  {
    var proj := ProjMatrix(s.width, s.height, ratio);
    [Draw(s.background, proj, b.backgroundMesh.value), Draw(s.foreground, proj, b.mesh.value)]
  }

  /** The calls drawing a sequence of buffers issues, and the aspect ratio it leaves. */
  datatype Pass = Pass(calls: seq<Call>, ratio: real)

  /** The loop body of `draw_multiple` over `bufs`, starting from aspect ratio `ratio`. */
  function DrawAll(s: DrawSetup, ratio: real, bufs: seq<TextBuffer>): Pass
  {
    if bufs == [] then Pass([], ratio)
    else
      var prev := DrawAll(s, ratio, bufs[..|bufs| - 1]);
      var b := bufs[|bufs| - 1];
      if !Ready(b) then prev
      else
        var r := TargetRatio(s, prev.ratio, b);
        Pass(prev.calls + RatioCalls(s, prev.ratio, b) + LayerCalls(s, r, b), r)
  }

  /** The (program, mesh) pairs of the draw calls, in order. */
  function Draws(calls: seq<Call>): seq<(Program, Mesh)>
  {
    if calls == [] then []
    else
      var c := calls[|calls| - 1];
      Draws(calls[..|calls| - 1]) + if c.Draw? then [(c.program, c.mesh)] else []
  }

  /** The background pair and then the foreground pair of every ready buffer, in buffer order. */
  function ReadyDraws(s: DrawSetup, bufs: seq<TextBuffer>): seq<(Program, Mesh)>
  {
    if bufs == [] then []
    else
      var b := bufs[|bufs| - 1];
      ReadyDraws(s, bufs[..|bufs| - 1]) +
        if Ready(b) then [(s.background, b.backgroundMesh.value), (s.foreground, b.mesh.value)] else []
  }

  /** The last ready buffer, if any. */
  function LastReady(bufs: seq<TextBuffer>): Option<TextBuffer>
  {
    if bufs == [] then None
    else if Ready(bufs[|bufs| - 1]) then Some(bufs[|bufs| - 1])
    else LastReady(bufs[..|bufs| - 1])
  }

  lemma {:induction false} DrawsAppend(a: seq<Call>, b: seq<Call>)
    ensures Draws(a + b) == Draws(a) + Draws(b)
  {
    if b != [] {
      assert (a + b)[..|a + b| - 1] == a + b[..|b| - 1];
      DrawsAppend(a, b[..|b| - 1]);
    } else {
      assert a + b == a;
    }
  }

  /** Drawing buffers never clears: the single clear of `draw_multiple` is the one before its loop. */
  lemma {:induction false} DrawAllNeverClears(s: DrawSetup, ratio: real, bufs: seq<TextBuffer>)
    ensures Clear !in DrawAll(s, ratio, bufs).calls
  {
    if bufs != [] {
      DrawAllNeverClears(s, ratio, bufs[..|bufs| - 1]);
    }
  }

  /**
    Every ready buffer is drawn background first, then foreground, with the
    background and main programs, in buffer order; unready buffers draw nothing.
   */
  lemma {:induction false} DrawAllDrawsReadyBuffers(s: DrawSetup, ratio: real, bufs: seq<TextBuffer>)
    ensures Draws(DrawAll(s, ratio, bufs).calls) == ReadyDraws(s, bufs)
  {
    if bufs != [] {
      var prev := DrawAll(s, ratio, bufs[..|bufs| - 1]);
      var b := bufs[|bufs| - 1];
      DrawAllDrawsReadyBuffers(s, ratio, bufs[..|bufs| - 1]);
      if Ready(b) {
        var r := TargetRatio(s, prev.ratio, b);
        var rc := RatioCalls(s, prev.ratio, b);
        var lc := LayerCalls(s, r, b);
        DrawsAppend(prev.calls + rc, lc);
        DrawsAppend(prev.calls, rc);
        assert Draws(rc) == [] by {
          if rc != [] {
            assert rc[..0] == [];
          }
        }
        assert lc[..1][..0] == [] && lc[..2][..1] == lc[..1] && lc[..2] == lc;
      }
    }
  }

  /**
    With the buffer ratio policy the last ready buffer's ratio is the one left in
    force; without it the ratio never changes and no viewport call is issued.
   */
  lemma {:induction false} DrawAllRatio(s: DrawSetup, ratio: real, bufs: seq<TextBuffer>)
    ensures s.bufferRatio && LastReady(bufs).Some? ==> DrawAll(s, ratio, bufs).ratio == LastReady(bufs).value.aspectRatio
    ensures !(s.bufferRatio && LastReady(bufs).Some?) ==> DrawAll(s, ratio, bufs).ratio == ratio
    ensures !s.bufferRatio ==> forall c | c in DrawAll(s, ratio, bufs).calls :: !c.UpdateViewport?
  {
    if bufs != [] {
      DrawAllRatio(s, ratio, bufs[..|bufs| - 1]);
    }
  }

  // ---------------------------------------------------------------------------
  // The terminal

  class Terminal {
    const display: Display?
    const gl: Gl
    const program: Program
    const backgroundProgram: Program
    const debugProgram: Program
    var debug: bool
    var running: bool
    const headless: bool
    const sinceStart: int
    const font: Font.Font
    const frameCounter: FrameCounter
    const textBufferAspectRatio: bool

    /** A terminal has a display exactly when it is not headless, and shares its graphics context with it. */
    ghost predicate Valid()
      reads this, display
    {
      && (display == null <==> headless)
      && (display != null ==> display.Valid() && display.gl == gl)
    }

    /**
      `Terminal::new`: a headless terminal has no display and placeholder programs
      0; otherwise a display of the requested size and the three programs the
      renderer compiled. Debug is off and the terminal is running.
     */
    constructor (headless: bool, width: nat, height: nat, font: Font.Font, textBufferAspectRatio: bool,
                 compiled: (Program, Program, Program), now: int, gl: Gl)
      requires !headless ==> height > 0
      ensures Valid()
      ensures fresh(frameCounter) && frameCounter.State() == Tally(0, now, 0)
      ensures this.headless == headless && this.gl == gl && this.font == font
      ensures this.textBufferAspectRatio == textBufferAspectRatio && sinceStart == now
      ensures !debug && running
      ensures headless ==> program == 0 && backgroundProgram == 0 && debugProgram == 0
      ensures !headless ==>
        && (program, backgroundProgram, debugProgram) == compiled
        && fresh(display) && display.width == width && display.height == height
        && display.aspectRatio == width as real / height as real
        && display.input == Input([])
      ensures gl.calls == old(gl.calls)
    {
      if headless {
        display := null;
        program, backgroundProgram, debugProgram := 0, 0, 0;
      } else {
        display := new Display(width, height, gl);
        program, backgroundProgram, debugProgram := compiled.0, compiled.1, compiled.2;
      }
      this.gl := gl;
      debug := false;
      running := true;
      this.headless := headless;
      sinceStart := now;
      this.font := font;
      frameCounter := new FrameCounter(now);
      this.textBufferAspectRatio := textBufferAspectRatio;
    }

    /** `get_program`: fails on a headless terminal; otherwise the debug program in debug mode, else the main one. */
    function GetProgram(): (p: Option<Program>)
      reads this
      ensures p.None? <==> headless
      ensures p.Some? ==> p.value == if debug then debugProgram else program
    {
      if headless then None
      else if !debug then Some(program)
      else Some(debugProgram)
    }

    /** `get_background_program`: as `GetProgram`, with the background program outside debug mode. */
    function GetBackgroundProgram(): (p: Option<Program>)
      reads this
      ensures p.None? <==> headless
      ensures p.Some? ==> p.value == if debug then debugProgram else backgroundProgram
    {
      if headless then None
      else if !debug then Some(backgroundProgram)
      else Some(debugProgram)
    }

    /** What the draw calls of a windowed terminal use. */
    function Setup(): DrawSetup
      reads this, display
      requires Valid() && display != null
    {
      DrawSetup(display.width, display.height, textBufferAspectRatio,
                GetBackgroundProgram().value, GetProgram().value)
    }

    /** `get_fps`: the frame counter's committed rate. */
    function GetFps(): (r: nat)
      reads this, frameCounter
      ensures r == frameCounter.State().fps
    {
      frameCounter.GetFps()
    }

    /** `set_debug`: ignored on a headless terminal; otherwise tells the renderer and records the flag. */
    method SetDebug(on: bool)
      modifies this`debug, gl
      ensures debug == if headless then old(debug) else on
      ensures gl.calls == old(gl.calls) + if headless then [] else [Call.SetDebug(on)]
    {
      if !headless {
        gl.SetDebug(on);
        debug := on;
      }
    }

    /** `close`: the terminal stops running, for good; nothing else changes. */
    method Close()
      modifies this`running
      ensures !running
    {
      running := false;
    }

    /**
      `refresh` as built without debug assertions: update the frame counter, then
      refresh the display, if any. The result is the display's verdict and the
      running flag together, so a closed terminal always answers false.
     */
    method Refresh(now: int, events: seq<WindowEvent>) returns (continuing: bool)
      requires Valid()
      requires now >= frameCounter.lastCheck
      modifies frameCounter, display, gl
      ensures Valid()
      ensures frameCounter.State() == Tick(old(frameCounter.State()), now)
      ensures display == null ==> continuing == running && gl.calls == old(gl.calls)
      ensures display != null ==> continuing == (!HasClose(events) && running) && display.Refreshed(events)
      ensures !running ==> !continuing
    {
      frameCounter.Update(now);
      if display != null {
        var open := display.Refresh(events);
        continuing := open && running;
      } else {
        continuing := running;
      }
    }

    /**
      `refresh` as built with debug assertions: as `Refresh`, except that a press
      of F3 recorded since the previous refresh flips debug mode before the
      display is refreshed.
     */
    method RefreshWithDebugToggle(now: int, events: seq<WindowEvent>) returns (continuing: bool)
      requires Valid()
      requires now >= frameCounter.lastCheck
      modifies this`debug, frameCounter, display, gl
      ensures Valid()
      ensures frameCounter.State() == Tick(old(frameCounter.State()), now)
      ensures display == null ==> continuing == running && debug == old(debug) && gl.calls == old(gl.calls)
      ensures display != null ==>
        var toggle := WasJustPressed(old(display.input), F3);
        var debugCalls := if toggle then [Call.SetDebug(!old(debug))] else [];
        && debug == (if toggle then !old(debug) else old(debug))
        && continuing == (!HasClose(events) && running)
        && display.input == Input(KeyUpdates(events))
        && display.aspectRatio == old(display.aspectRatio)
        && (LastResize(events).None? ==>
              && display.width == old(display.width) && display.height == old(display.height)
              && gl.calls == old(gl.calls) + debugCalls)
        && (LastResize(events).Some? ==>
              && (display.width, display.height) == LastResize(events).value
              && gl.calls == old(gl.calls) + debugCalls + [UpdateViewport(display.width, display.height)])
      ensures !running ==> !continuing
    {
      frameCounter.Update(now);
      if display != null {
        var input := display.input;
        if WasJustPressed(input, F3) {
          SetDebug(!debug);
        }
        var open := display.Refresh(events);
        continuing := open && running;
      } else {
        continuing := running;
      }
    }

    /**
      `draw`: nothing at all, not even a clear, without a display or without both
      meshes. Otherwise: adopt the buffer's aspect ratio if the policy says so and
      it differs, clear once, then draw the background mesh with the background
      program and the foreground mesh with the main program.
     */
    method Draw(buffer: TextBuffer)
      requires Valid()
      modifies display, gl
      ensures Valid()
      ensures display == null || !Ready(buffer) ==> gl.calls == old(gl.calls)
      ensures display != null && !Ready(buffer) ==> display.aspectRatio == old(display.aspectRatio)
      ensures display != null ==>
        && display.width == old(display.width) && display.height == old(display.height)
        && display.input == old(display.input)
      ensures display != null && Ready(buffer) ==>
        var s := old(Setup());
        var r := old(display.aspectRatio);
        && display.aspectRatio == TargetRatio(s, r, buffer)
        && gl.calls == old(gl.calls) + RatioCalls(s, r, buffer) + [Clear] + LayerCalls(s, TargetRatio(s, r, buffer), buffer)
    {
      if display != null && buffer.mesh.Some? && buffer.backgroundMesh.Some? {
        if textBufferAspectRatio && buffer.aspectRatio != display.GetAspectRatio() {
          display.SetAspectRatio(buffer.aspectRatio);
        }
        gl.Clear();
        gl.Draw(GetBackgroundProgram().value, display.projMatrix, buffer.backgroundMesh.value);
        gl.Draw(GetProgram().value, display.projMatrix, buffer.mesh.value);
      }
    }

    /**
      `draw_multiple`: one clear before anything else, headless or not and even for
      no buffers; then, for each ready buffer in order, the aspect-ratio update and
      the two draws of `draw`, without a further clear.
     */
    method DrawMultiple(buffers: seq<TextBuffer>)
      requires Valid()
      modifies display, gl
      ensures Valid()
      ensures display == null ==> gl.calls == old(gl.calls) + [Clear]
      ensures display != null ==>
        var pass := DrawAll(old(Setup()), old(display.aspectRatio), buffers);
        && gl.calls == old(gl.calls) + [Clear] + pass.calls
        && display.aspectRatio == pass.ratio
        && display.width == old(display.width) && display.height == old(display.height)
        && display.input == old(display.input)
    {
      gl.Clear();
      ghost var s := if display != null then Setup() else DrawSetup(0, 0, false, 0, 0);
      ghost var r0 := if display != null then display.aspectRatio else 0.0;
      var i := 0;
      while i < |buffers|
        invariant 0 <= i <= |buffers|
        invariant Valid()
        invariant display == null ==> gl.calls == old(gl.calls) + [Clear]
        invariant display != null ==>
          && gl.calls == old(gl.calls) + [Clear] + DrawAll(s, r0, buffers[..i]).calls
          && display.aspectRatio == DrawAll(s, r0, buffers[..i]).ratio
          && display.width == old(display.width) && display.height == old(display.height)
          && display.input == old(display.input)
      {
        var buffer := buffers[i];
        assert buffers[..i + 1][..i] == buffers[..i];
        if display != null && buffer.mesh.Some? && buffer.backgroundMesh.Some? {
          if textBufferAspectRatio && buffer.aspectRatio != display.GetAspectRatio() {
            display.SetAspectRatio(buffer.aspectRatio);
          }
          gl.Draw(GetBackgroundProgram().value, display.projMatrix, buffer.backgroundMesh.value);
          gl.Draw(GetProgram().value, display.projMatrix, buffer.mesh.value);
        }
        i := i + 1;
      }
      assert buffers[..i] == buffers;
    }
  }
}
