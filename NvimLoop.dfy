/** The engine side of the bridge: the actions the host queues on the engine's
    main loop, and the engine state they change.

    The engine itself is not modelled. What the host sees of it is kept as the
    fields of `Engine`: the event queue of its main loop, its windows' top and
    bottom lines and cursors, the attached UI's height, how often the UI was
    refreshed, the input it received, the error messages it was asked to show,
    and the memline flags of the current buffer. */
module NvimLoop {
  import opened HostText
  import opened Machine

  /** A window handle (`win_T *`). */
  type WinId = nat

  /** A cursor position (`pos_T`): a 1-based line and a 0-based column. */
  datatype Pos = Pos(lnum: Int32, col: Int32)

  /** What the host reads and writes of a window. */
  datatype Win = Win(topline: Int32, botline: Int32, cursor: Pos)

  /** A callback captured in a main-loop event, with its captured values. */
  datatype Action =
    | ResizeAction(win: WinId, top: Int32, bottom: Int32, height: Int32)
    | InputAction(input: seq<Byte>)

  /** The engine state that queued actions change. */
  datatype EngineState = EngineState(
    windows: map<WinId, Win>, uiHeight: Int32, refreshes: nat, inputs: seq<seq<Byte>>)

  /** An action can run when the window it names exists. */
  predicate Runs(s: EngineState, a: Action) {
    a.ResizeAction? ==> a.win in s.windows
  }

  /** The effect of running one action: a resize moves the window's top and bottom
      lines and refreshes the UI when its height changes; an input is fed to the
      engine as it is. */
  function Apply(s: EngineState, a: Action): (r: EngineState)
    requires Runs(s, a)
    ensures r.windows.Keys == s.windows.Keys
  {
    match a
    case ResizeAction(w, top, bottom, height) =>
      s.(windows := s.windows[w := s.windows[w].(topline := top, botline := bottom)],
         uiHeight := height,
         refreshes := s.refreshes + if s.uiHeight != height then 1 else 0)
    case InputAction(input) =>
      s.(inputs := s.inputs + [input])
  }

  /** A resize sets the window's lines and the UI height, refreshes once exactly
      when the height changes, and leaves every other window alone. */
  lemma ResizeEffect(s: EngineState, w: WinId, top: Int32, bottom: Int32, height: Int32)
    requires w in s.windows
    ensures var r := Apply(s, ResizeAction(w, top, bottom, height));
            && r.windows[w].topline == top && r.windows[w].botline == bottom
            && r.windows[w].cursor == s.windows[w].cursor
            && (forall v :: v in s.windows && v != w ==> r.windows[v] == s.windows[v])
            && r.uiHeight == height
            && (r.refreshes == s.refreshes + 1 <==> s.uiHeight != height)
            && (r.refreshes == s.refreshes <==> s.uiHeight == height)
            && r.inputs == s.inputs
  {
  }

  /** Running the same resize twice is running it once: the second finds the
      height already set and does not refresh. */
  lemma ResizeIdempotent(s: EngineState, w: WinId, top: Int32, bottom: Int32, height: Int32)
    requires w in s.windows
    ensures var a := ResizeAction(w, top, bottom, height);
            Apply(Apply(s, a), a) == Apply(s, a)
  {
    var a := ResizeAction(w, top, bottom, height);
    var r := Apply(s, a);
    assert r.windows[w := r.windows[w].(topline := top, botline := bottom)] == r.windows;
  }

  /** Every action of a queue can run in turn. */
  predicate AllRun(s: EngineState, q: seq<Action>)
    decreases |q|
  {
    q == [] || (Runs(s, q[0]) && AllRun(Apply(s, q[0]), q[1..]))
  }

  /** The effect of running a queue front to back, each action once. */
  function ApplyAll(s: EngineState, q: seq<Action>): EngineState
    requires AllRun(s, q)
    decreases |q|
  {
    if q == [] then s else ApplyAll(Apply(s, q[0]), q[1..])
  }

  /** The inputs of a queue, in queue order. */
  function InputsOf(q: seq<Action>): seq<seq<Byte>> {
    if q == [] then []
    else (if q[0].InputAction? then [q[0].input] else []) + InputsOf(q[1..])
  }

  /** Draining a queue feeds the engine exactly the queued inputs, in the order
      they were queued. */
  lemma {:induction false} DrainFeedsInputsInOrder(s: EngineState, q: seq<Action>)
    requires AllRun(s, q)
    ensures ApplyAll(s, q).inputs == s.inputs + InputsOf(q)
    decreases |q|
  {
    if q != [] {
      var s' := Apply(s, q[0]);
      DrainFeedsInputsInOrder(s', q[1..]);
      var head := if q[0].InputAction? then [q[0].input] else [];
      assert s'.inputs == s.inputs + head;
      assert InputsOf(q) == head + InputsOf(q[1..]);
      assert s.inputs + head + InputsOf(q[1..]) == s.inputs + (head + InputsOf(q[1..]));
    }
  }

  /** Queueing more actions behind a queue runs them after it. */
  lemma {:induction false} ApplyAllConcat(s: EngineState, p: seq<Action>, q: seq<Action>)
    requires AllRun(s, p) && AllRun(ApplyAll(s, p), q)
    ensures AllRun(s, p + q) && ApplyAll(s, p + q) == ApplyAll(ApplyAll(s, p), q)
    decreases |p|
  {
    if p != [] {
      assert (p + q)[0] == p[0] && (p + q)[1..] == p[1..] + q;
      ApplyAllConcat(Apply(s, p[0]), p[1..], q);
    } else {
      assert p + q == q;
    }
  }

  /** The engine as the host drives it. */
  class Engine {
    /** The events waiting on the main loop (`main_loop`), oldest first. */
    var queue: seq<Action>
    var windows: map<WinId, Win>
    /** The current window (`curwin`). */
    var curwin: WinId
    /** `ui->height`. */
    var uiHeight: Int32
    /** How many times `ui_refresh` ran. */
    var refreshes: nat
    /** What `nvim_input` received, oldest first. */
    var inputs: seq<seq<Byte>>
    /** What `emsg` was asked to show, oldest first. */
    var messages: seq<Text>
    /** `curbuf->b_ml.ml_flags`. */
    var mlFlags: bv32

    function State(): EngineState
      reads this
    {
      EngineState(windows, uiHeight, refreshes, inputs)
    }

    /** The engine once the host's UI is attached (`vsnvim_ui_start`): the UI
        starts one row high and nothing has been queued or shown yet. */
    constructor (windows: map<WinId, Win>, curwin: WinId, mlFlags: bv32)
      requires curwin in windows
      ensures this.windows == windows && this.curwin == curwin && this.mlFlags == mlFlags
      ensures queue == [] && uiHeight == 1 && refreshes == 0 && inputs == [] && messages == []
    {
      this.windows := windows;
      this.curwin := curwin;
      this.mlFlags := mlFlags;
      queue := [];
      uiHeight := 1;
      refreshes := 0;
      inputs := [];
      messages := [];
    }

    /** `QueueNvimAction`: schedules exactly one event holding the callback. */
    method QueueNvimAction(a: Action)
      modifies this`queue
      ensures queue == old(queue) + [a]
    {
      queue := queue + [a];
    }

    /** `ResizeWindow`: queues the resize of window `w`. */
    method ResizeWindow(w: WinId, top: Int32, bottom: Int32, height: Int32)
      modifies this`queue
      ensures queue == old(queue) + [ResizeAction(w, top, bottom, height)]
    {
      QueueNvimAction(ResizeAction(w, top, bottom, height));
    }

    /** `SendInput`: queues the input, bytes and length as given. */
    method SendInput(input: seq<Byte>)
      modifies this`queue
      ensures queue == old(queue) + [InputAction(input)]
    {
      QueueNvimAction(InputAction(input));
    }

    /** The main loop takes the oldest event and runs its callback once
        (the `handler` of `QueueNvimAction`). */
    method RunNextEvent()
      requires queue != [] && Runs(State(), queue[0])
      modifies this`queue, this`windows, this`uiHeight, this`refreshes, this`inputs
      ensures queue == old(queue)[1..]
      ensures State() == Apply(old(State()), old(queue)[0])
    {
      var a := queue[0];
      queue := queue[1..];
      match a {
        case ResizeAction(w, top, bottom, height) =>
          RunResize(w, top, bottom, height);
        case InputAction(input) =>
          NvimInput(input);
      }
    }

    /** The body of the resize callback. */
    method RunResize(w: WinId, top: Int32, bottom: Int32, height: Int32)
      requires w in windows
      modifies this`windows, this`uiHeight, this`refreshes
      ensures State() == Apply(old(State()), ResizeAction(w, top, bottom, height))
    {
      windows := windows[w := windows[w].(topline := top, botline := bottom)];
      if uiHeight != height {
        uiHeight := height;
        UiRefresh();
      }
    }

    /** `ui_refresh`; only that it ran is recorded. */
    method UiRefresh()
      modifies this`refreshes
      ensures refreshes == old(refreshes) + 1
    {
      refreshes := refreshes + 1;
    }

    /** `nvim_input`; only what it received is recorded. */
    method NvimInput(input: seq<Byte>)
      modifies this`inputs
      ensures inputs == old(inputs) + [input]
    {
      inputs := inputs + [input];
    }

    /** `emsg`; only the message is recorded. */
    method Emsg(msg: Text)
      modifies this`messages
      ensures messages == old(messages) + [msg]
    {
      messages := messages + [msg];
    }
  }
}
