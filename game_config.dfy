/**
 * The engine's game configuration: window title and size, frame and update
 * rate caps and vertical sync, with a dirty flag so that changes are pushed
 * to the window only once.
 */
module Config {
  /** Java's int. */
  newtype int32 = x: int | -0x8000_0000 <= x < 0x8000_0000

  const IntMax: int32 := 0x7fff_ffff

  /** The calls updateGameState makes on the window and on GLFW. */
  datatype WindowCommand =
    | MakeContextCurrent
    | SetTitle(title: string)
    | SetWidth(width: int32)
    | SetHeight(height: int32)
    | SwapInterval(interval: int32)

  /** vsync ? 1 : 0 */
  function SwapIntervalOf(vsync: bool): (interval: int32)
    ensures interval == 1 <==> vsync
    ensures interval == 0 <==> !vsync
  {
    if vsync then 1 else 0
  }

  /** The commands that push a configuration to the window, in order. */
  function PushCommands(title: string, width: int32, height: int32, vsync: bool): seq<WindowCommand> {
    [MakeContextCurrent, SetTitle(title), SetWidth(width), SetHeight(height), SwapInterval(SwapIntervalOf(vsync))]
  }

  /** What a window shows as far as the configuration is concerned. */
  datatype WindowState = WindowState(current: bool, title: string, width: int32, height: int32, swapInterval: int32)

  /** The effect of one command: each sets the attribute it names. */
  function Apply(w: WindowState, c: WindowCommand): WindowState {
    match c
    case MakeContextCurrent => w.(current := true)
    case SetTitle(t) => w.(title := t)
    case SetWidth(n) => w.(width := n)
    case SetHeight(n) => w.(height := n)
    case SwapInterval(i) => w.(swapInterval := i)
  }

  function ApplyAll(w: WindowState, cs: seq<WindowCommand>): WindowState
    decreases |cs|
  {
    if |cs| == 0 then w else ApplyAll(Apply(w, cs[0]), cs[1..])
  }

  /** Pushing a configuration brings any window in line with it. */
  lemma PushBringsWindowInLine(w: WindowState, title: string, width: int32, height: int32, vsync: bool)
    ensures ApplyAll(w, PushCommands(title, width, height, vsync))
      == WindowState(true, title, width, height, if vsync then 1 else 0)
  {
    var interval := SwapIntervalOf(vsync);
    var w1 := w.(current := true);
    var w2 := w1.(title := title);
    var w3 := w2.(width := width);
    var w4 := w3.(height := height);
    var w5 := w4.(swapInterval := interval);
    calc {
      ApplyAll(w, PushCommands(title, width, height, vsync));
      ApplyAll(w1, [SetTitle(title), SetWidth(width), SetHeight(height), SwapInterval(interval)]);
      ApplyAll(w2, [SetWidth(width), SetHeight(height), SwapInterval(interval)]);
      ApplyAll(w3, [SetHeight(height), SwapInterval(interval)]);
      ApplyAll(w4, [SwapInterval(interval)]);
      ApplyAll(w5, []);
      w5;
    }
  }

  class GameConfig {
    var dirty: bool
    var title: string
    var width: int32
    var height: int32
    var maxFPS: int32
    var maxUPS: int32
    var vsync: bool

    /** newConfig(): the defaults, not dirty. */
    constructor ()
      ensures !dirty && GetTitle() == "" && GetWidth() == 1080 && GetHeight() == 720
      ensures GetMaxFPS() == IntMax && GetMaxUPS() == 20 && !IsVsync()
    {
      dirty := false;
      title := "";
      width, height := 1080, 720;
      maxFPS, maxUPS := IntMax, 20;
      vsync := false;
    }

    method SetTitle(title: string) returns (self: GameConfig)
      modifies this
      ensures self == this && dirty && GetTitle() == title
      ensures width == old(width) && height == old(height) && maxFPS == old(maxFPS)
      ensures maxUPS == old(maxUPS) && vsync == old(vsync)
    {
      this.title := title;
      dirty := true;
      return this;
    }

    method SetWidth(width: int32) returns (self: GameConfig)
      modifies this
      ensures self == this && dirty && GetWidth() == width
      ensures title == old(title) && height == old(height) && maxFPS == old(maxFPS)
      ensures maxUPS == old(maxUPS) && vsync == old(vsync)
    {
      this.width := width;
      dirty := true;
      return this;
    }

    method SetHeight(height: int32) returns (self: GameConfig)
      modifies this
      ensures self == this && dirty && GetHeight() == height
      ensures title == old(title) && width == old(width) && maxFPS == old(maxFPS)
      ensures maxUPS == old(maxUPS) && vsync == old(vsync)
    {
      this.height := height;
      dirty := true;
      return this;
    }

    method SetMaxFPS(maxFPS: int32) returns (self: GameConfig)
      modifies this
      ensures self == this && dirty && GetMaxFPS() == maxFPS
      ensures title == old(title) && width == old(width) && height == old(height)
      ensures maxUPS == old(maxUPS) && vsync == old(vsync)
    {
      this.maxFPS := maxFPS;
      dirty := true;
      return this;
    }

    method SetMaxUPS(maxUPS: int32) returns (self: GameConfig)
      modifies this
      ensures self == this && dirty && GetMaxUPS() == maxUPS
      ensures title == old(title) && width == old(width) && height == old(height)
      ensures maxFPS == old(maxFPS) && vsync == old(vsync)
    {
      this.maxUPS := maxUPS;
      dirty := true;
      return this;
    }

    method SetVsync(vsync: bool) returns (self: GameConfig)
      modifies this
      ensures self == this && dirty && IsVsync() == vsync
      ensures title == old(title) && width == old(width) && height == old(height)
      ensures maxFPS == old(maxFPS) && maxUPS == old(maxUPS)
    {
      this.vsync := vsync;
      dirty := true;
      return this;
    }

    function GetTitle(): (title: string)
      reads this
    {
      this.title
    }

    function GetWidth(): (width: int32)
      reads this
    {
      this.width
    }

    function GetHeight(): (height: int32)
      reads this
    {
      this.height
    }

    function GetMaxFPS(): (maxFPS: int32)
      reads this
    {
      this.maxFPS
    }

    function GetMaxUPS(): (maxUPS: int32)
      reads this
    {
      this.maxUPS
    }

    function IsVsync(): (vsync: bool)
      reads this
    {
      this.vsync
    }

    /** Pushes the settings to the window when they changed since the last
        push, and clears the dirty flag; otherwise does nothing. */
    method UpdateGameState() returns (commands: seq<WindowCommand>)
      modifies this
      ensures !old(dirty) ==> commands == []
      ensures old(dirty) ==> commands == PushCommands(title, width, height, vsync)
      ensures !dirty
      ensures title == old(title) && width == old(width) && height == old(height)
      ensures maxFPS == old(maxFPS) && maxUPS == old(maxUPS) && vsync == old(vsync)
    {
      if !dirty {
        return [];
      }
      commands := [MakeContextCurrent, WindowCommand.SetTitle(title),
                   WindowCommand.SetWidth(width), WindowCommand.SetHeight(height)];
      commands := commands + [SwapInterval(if vsync then 1 else 0)];
      dirty := false;
    }
  }
}
