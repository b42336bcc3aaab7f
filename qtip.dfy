/**
 * The layout state of the main window of qtipint/qtip.py: which main
 * widget is shown (the plk plot or the file-open widget), whether the
 * embedded console is shown, the window size that follows from it, and
 * the two-phase "hide everything now, show the chosen widgets on the next
 * turn of the event loop" update.
 */
module Qtip {
  import opened Wrappers

  const WideWidth := 1350
  const NarrowWidth := 650
  const WindowHeight := 550

  /** `str.lower()` on ASCII letters; other characters are kept. */
  function LowerChar(c: char): char
  {
    if 'A' <= c <= 'Z' then (c as int + 32) as char else c
  }

  function Lower(s: string): string
  {
    seq(|s|, i requires 0 <= i < |s| => LowerChar(s[i]))
  }

  /** The width the window takes when the console is shown or hidden. */
  function WidthFor(showIPython: bool): int
  {
    if showIPython then WideWidth else NarrowWidth
  }

  /** The fields `setQtipLayout` reads and writes, and the window size. */
  datatype Layout = Layout(
    whichWidget: string,
    showIPython: bool,
    prevWhichWidget: string,
    prevShowIPython: Option<bool>,
    width: int,
    height: int)

  /** The state `initUI` sets up: no widget chosen, console off, no previous console state. */
  function InitialLayout(width: int, height: int): (s: Layout)
    ensures s.whichWidget == "None" && !s.showIPython && s.width == width && s.height == height
    ensures s.prevShowIPython == None && SizeFollowsPrev(s)
    ensures SetLayout(s, None, None).width == NarrowWidth
  {
    Layout("None", false, "None", None, width, height)
  }

  /** Once a console state has been recorded, the window has the size that state calls for. */
  predicate SizeFollowsPrev(s: Layout)
  {
    s.prevShowIPython.Some? ==> s.width == WidthFor(s.prevShowIPython.value) && s.height == WindowHeight
  }

  /**
   * `setQtipLayout(whichWidget, showIPython)`: an argument that is not None
   * overwrites its field; the previous-state fields are brought up to date;
   * the window is resized only when the console state differs from the
   * recorded one (always on the first call, when none is recorded).
   */
  function SetLayout(s: Layout, which: Option<string>, show: Option<bool>): (r: Layout)
    ensures r.whichWidget == if which.Some? then which.value else s.whichWidget
    ensures r.showIPython == if show.Some? then show.value else s.showIPython
    ensures r.prevWhichWidget == r.whichWidget && r.prevShowIPython == Some(r.showIPython)
    ensures s.prevShowIPython == Some(r.showIPython) ==> r.width == s.width && r.height == s.height
    ensures s.prevShowIPython != Some(r.showIPython) ==>
              r.width == WidthFor(r.showIPython) && r.height == WindowHeight
    ensures SizeFollowsPrev(s) ==> SizeFollowsPrev(r) && r.width == WidthFor(r.showIPython)
  {
    var which' := if which.Some? then which.value else s.whichWidget;
    var show' := if show.Some? then show.value else s.showIPython;
    var toggled := Some(show') != s.prevShowIPython;
    Layout(which', show', which', Some(show'),
      if toggled then WidthFor(show') else s.width,
      if toggled then WindowHeight else s.height)
  }

  /** One call of `setQtipLayout`, by its two optional arguments. */
  datatype LayoutCall = LayoutCall(which: Option<string>, show: Option<bool>)

  function RunLayouts(s: Layout, calls: seq<LayoutCall>): Layout
    decreases |calls|
  {
    if calls == [] then s else RunLayouts(SetLayout(s, calls[0].which, calls[0].show), calls[1..])
  }

  /**
   * From the initial state (or any state whose size matches its recorded
   * console state), after any non-empty sequence of layout calls the window
   * is 1350 wide exactly when the console is shown, and 650 otherwise.
   */
  lemma {:induction false} WidthFollowsConsole(s: Layout, calls: seq<LayoutCall>)
    requires SizeFollowsPrev(s) && calls != []
    ensures RunLayouts(s, calls).width == WidthFor(RunLayouts(s, calls).showIPython)
    ensures RunLayouts(s, calls).height == WindowHeight
    ensures RunLayouts(s, calls).prevShowIPython == Some(RunLayouts(s, calls).showIPython)
    decreases |calls|
  {
    var s' := SetLayout(s, calls[0].which, calls[0].show);
    if calls[1..] != [] {
      WidthFollowsConsole(s', calls[1..]);
    }
  }

  /** Toggling the console twice after a layout call gives back the same state, size included. */
  lemma ToggleIPythonTwice(s: Layout, which: Option<string>, show: Option<bool>)
    requires SizeFollowsPrev(s)
    ensures var t := SetLayout(s, which, show);
            SetLayout(SetLayout(t, None, Some(!t.showIPython)), None, Some(t.showIPython)) == t
  {
  }

  /** Which of the three widgets are visible. */
  datatype Visibility = Visibility(openSomething: bool, plk: bool, console: bool)

  const AllHidden := Visibility(false, false, false)

  /**
   * What `showVisibleWidgets` shows: the console iff it is switched on,
   * the plk widget iff `whichWidget` is `plk` and the file-open widget iff
   * it is `opensomething` (either case); never both main widgets.
   */
  function Shown(whichWidget: string, showIPython: bool): (v: Visibility)
    ensures v.console == showIPython
    ensures v.plk <==> Lower(whichWidget) == "plk"
    ensures v.openSomething <==> Lower(whichWidget) == "opensomething"
    ensures !(v.plk && v.openSomething)
  {
    var which := Lower(whichWidget);
    Visibility(
      which == "opensomething",
      which == "plk",
      showIPython)
  }

  /** `show()` on the widgets of `w`, leaving the others as they are. */
  function ShowAlso(v: Visibility, w: Visibility): Visibility
  {
    Visibility(v.openSomething || w.openSomething, v.plk || w.plk, v.console || w.console)
  }

  /** The main window, reduced to its layout state and its three widgets' visibility. */
  class QtipWindow {
    var whichWidget: string
    var showIPython: bool
    var prevWhichWidget: string
    var prevShowIPython: Option<bool>
    var width: int
    var height: int
    var openSomethingVisible: bool
    var plkVisible: bool
    var consoleVisible: bool
    /** Calls of `showVisibleWidgets` queued by `QTimer.singleShot(0, ...)` and not yet run. */
    var pendingShows: nat

    function State(): Layout
      reads this
    {
      Layout(whichWidget, showIPython, prevWhichWidget, prevShowIPython, width, height)
    }

    function Visible(): Visibility
      reads this
    {
      Visibility(openSomethingVisible, plkVisible, consoleVisible)
    }

    ghost predicate Valid()
      reads this
    {
      SizeFollowsPrev(State())
    }

    /**
     * `__init__`, as far as the layout goes: the state of `initUI`, the
     * three widgets created hidden, the first layout call (plk, console
     * off) and the one `requestOpenPlk` makes.
     */
    constructor (initialWidth: int, initialHeight: int)
      ensures Valid()
      ensures State() == RunLayouts(InitialLayout(initialWidth, initialHeight),
                                    [LayoutCall(Some("plk"), Some(false)), LayoutCall(Some("plk"), Some(false))])
      ensures whichWidget == "plk" && !showIPython && width == NarrowWidth && height == WindowHeight
      ensures Visible() == AllHidden && pendingShows == 2
    {
      showIPython := false;
      whichWidget := "None";
      prevShowIPython := None;
      prevWhichWidget := "None";
      width, height := initialWidth, initialHeight;
      plkVisible, consoleVisible, openSomethingVisible := false, false, false;
      pendingShows := 0;
      new;
      SetQtipLayout(Some("plk"), Some(false));
      RequestOpenPlk();
    }

    /** `hideAllWidgets` */
    method HideAllWidgets()
      modifies this
      ensures Visible() == AllHidden
      ensures State() == old(State()) && pendingShows == old(pendingShows)
    {
      openSomethingVisible := false;
      plkVisible := false;
      consoleVisible := false;
    }

    /** `showVisibleWidgets`: shows the chosen widgets as the state is when it runs. */
    method ShowVisibleWidgets()
      modifies this
      ensures Visible() == ShowAlso(old(Visible()), Shown(whichWidget, showIPython))
      ensures State() == old(State()) && pendingShows == old(pendingShows)
    {
      var which := Lower(whichWidget);
      if which == "opensomething" {
        openSomethingVisible := true;
      } else if which == "plk" {
        plkVisible := true;
      }
      if showIPython {
        consoleVisible := true;
      }
    }

    /**
     * `setQtipLayout`: update the state, hide every widget, queue the
     * deferred show, record the previous state and resize if the console
     * was toggled.
     */
    method SetQtipLayout(which: Option<string>, show: Option<bool>)
      requires Valid()
      modifies this
      ensures Valid()
      ensures State() == SetLayout(old(State()), which, show)
      ensures Visible() == AllHidden && pendingShows == old(pendingShows) + 1
    {
      if which.Some? {
        whichWidget := which.value;
      }
      if show.Some? {
        showIPython := show.value;
      }
      HideAllWidgets();
      pendingShows := pendingShows + 1;
      prevWhichWidget := whichWidget;
      if Some(showIPython) != prevShowIPython {
        prevShowIPython := Some(showIPython);
        if showIPython {
          width, height := WideWidth, WindowHeight;
        } else {
          width, height := NarrowWidth, WindowHeight;
        }
      }
    }

    /** One turn of the event loop: run the oldest queued `showVisibleWidgets`, if any. */
    method Tick()
      modifies this
      ensures State() == old(State())
      ensures old(pendingShows) == 0 ==> Visible() == old(Visible()) && pendingShows == 0
      ensures old(pendingShows) > 0 ==>
                && pendingShows == old(pendingShows) - 1
                && Visible() == ShowAlso(old(Visible()), Shown(whichWidget, showIPython))
      ensures old(pendingShows) > 0 && old(Visible()) == AllHidden ==>
                Visible() == Shown(whichWidget, showIPython)
    {
      if pendingShows > 0 {
        pendingShows := pendingShows - 1;
        ShowVisibleWidgets();
      }
    }

    /** `toggleIPython`: flip the console, keep the main widget. */
    method ToggleIPython()
      requires Valid()
      modifies this
      ensures Valid()
      ensures State() == SetLayout(old(State()), None, Some(!old(showIPython)))
      ensures showIPython == !old(showIPython) && whichWidget == old(whichWidget)
      ensures Visible() == AllHidden && pendingShows == old(pendingShows) + 1
    {
      SetQtipLayout(None, Some(!showIPython));
    }

    /** `togglePlk`: choose the plk widget, keep the console as it is. */
    method TogglePlk()
      requires Valid()
      modifies this
      ensures Valid()
      ensures State() == SetLayout(old(State()), Some("plk"), None)
      ensures whichWidget == "plk" && showIPython == old(showIPython)
      ensures Visible() == AllHidden && pendingShows == old(pendingShows) + 1
    {
      SetQtipLayout(Some("plk"), None);
    }

    /** The layout step of `requestOpenPlk`: the plk widget, the console passed through unchanged. */
    method RequestOpenPlk()
      requires Valid()
      modifies this
      ensures Valid()
      ensures State() == SetLayout(old(State()), Some("plk"), Some(old(showIPython)))
      ensures whichWidget == "plk" && showIPython == old(showIPython)
      ensures width == old(width) || old(prevShowIPython) != Some(old(showIPython))
      ensures Visible() == AllHidden && pendingShows == old(pendingShows) + 1
    {
      SetQtipLayout(Some("plk"), Some(showIPython));
    }
  }
}
