/**
 * The store's main window: its search controller, its geometry and its
 * back/forward buttons. Fields stand for the members the source updates in
 * place (the search timer, the completion window's keyword, the widget's
 * geometry); everything the window asks of a collaborator is appended to an
 * effect log. Each slot is proved against the pure functions of the Search
 * and WindowState modules.
 */
module WebWindowUi {
  import opened Search
  import opened WindowState
  import opened Navigation

  class WebWindow {
    /** The text of the title bar's search edit. */
    var searchText: string
    /** Whether the single-shot search timer is running, and its interval. */
    var timerActive: bool
    var timerInterval: int
    /** The completion window's keyword. */
    var keyword: string
    /** Calls made on the search manager, the completion window and the search proxy. */
    var effects: seq<Effect>

    /** The widget's position, size and maximized state. */
    var pos: Point
    var size: Size
    var maximized: bool
    /** The minimum size showWindow sets, and whether the widget is shown. */
    var minimumSize: Size
    var visible: bool
    /** The resize, move and maximize calls made on the widget. */
    var windowActions: seq<WindowAction>

    /** The web view's page. */
    const page: WebPage

    function SearchStateOf(): SearchState
      reads this
    {
      SearchState(searchText, timerActive, timerInterval, keyword, effects)
    }

    function GeometryOf(): Geometry
      reads this
    {
      Geometry(pos, size, maximized)
    }

    predicate Valid()
      reads this
    {
      Inv(SearchStateOf())
    }

    /**
     * The constructor: a single-shot idle timer, an empty search edit and
     * keyword, a hidden widget placed by the toolkit, and then the saved state
     * restored into it.
     */
    constructor (saved: StateMap, initialPos: Point, initialSize: Size)
      ensures Valid()
      ensures SearchStateOf() == Initial
      ensures GeometryOf() == Restored(Geometry(initialPos, initialSize, false), saved)
      ensures windowActions == RestoreActions(saved)
      ensures minimumSize == Size(0, 0)
      ensures visible == ToBool(ValueOr(saved, MaximizedKey, BoolValue(false)))
      ensures fresh(page) && page.history == History([], "", [])
    {
      searchText, timerActive, timerInterval, keyword, effects := "", false, 0, "", [];
      pos, size, maximized := initialPos, initialSize, false;
      minimumSize, visible := Size(0, 0), false;
      windowActions := [];
      page := new WebPage("");
      new;
      RestoreWindowState(saved);
    }

    /**
     * RestoreWindowState: resize, then move, then maximize, each only as the
     * saved map says. Showing maximized also shows the widget.
     */
    method RestoreWindowState(saved: StateMap)
      modifies this`pos, this`size, this`maximized, this`visible, this`windowActions
      ensures GeometryOf() == Restored(old(GeometryOf()), saved)
      ensures visible == (old(visible) || ToBool(ValueOr(saved, MaximizedKey, BoolValue(false))))
      ensures windowActions == old(windowActions) + RestoreActions(saved)
    {
      ghost var g0 := GeometryOf();
      RestoreSize(saved);
      RestorePos(saved);
      RestoreMaximized(saved);
      RestoredBySteps(g0, saved);
    }

    /** The resize of a restore: to the saved size, if one is saved. */
    method RestoreSize(saved: StateMap)
      modifies this`size, this`windowActions
      ensures GeometryOf() == ApplyAll(old(GeometryOf()), SizeStep(saved))
      ensures windowActions == old(windowActions) + SizeStep(saved)
    {
      if SizeKey in saved {
        size := ToSize(saved[SizeKey]);
        windowActions := windowActions + [Resize(size)];
      }
      ApplyAllAtMostOne(old(GeometryOf()), SizeStep(saved));
    }

    /** The move of a restore: to the saved position, if one is saved. */
    method RestorePos(saved: StateMap)
      modifies this`pos, this`windowActions
      ensures GeometryOf() == ApplyAll(old(GeometryOf()), PosStep(saved))
      ensures windowActions == old(windowActions) + PosStep(saved)
    {
      if PosKey in saved {
        pos := ToPoint(saved[PosKey]);
        windowActions := windowActions + [Move(pos)];
      }
      ApplyAllAtMostOne(old(GeometryOf()), PosStep(saved));
    }

    /** The maximize of a restore: showMaximized, which also shows the widget, if the saved flag is true. */
    method RestoreMaximized(saved: StateMap)
      modifies this`maximized, this`visible, this`windowActions
      ensures GeometryOf() == ApplyAll(old(GeometryOf()), MaximizeStep(saved))
      ensures visible == (old(visible) || ToBool(ValueOr(saved, MaximizedKey, BoolValue(false))))
      ensures windowActions == old(windowActions) + MaximizeStep(saved)
    {
      if ToBool(ValueOr(saved, MaximizedKey, BoolValue(false))) {
        maximized, visible := true, true;
        windowActions := windowActions + [ShowMaximized];
      }
      ApplyAllAtMostOne(old(GeometryOf()), MaximizeStep(saved));
    }

    /**
     * BackupWindowState: the map saved on destruction. Restoring it into any
     * window that is not maximized reproduces this window's geometry.
     */
    method BackupWindowState() returns (saved: StateMap)
      ensures saved == WindowState.BackupWindowState(pos, size, maximized)
      ensures forall g: Geometry :: !g.maximized ==> Restored(g, saved) == GeometryOf()
    {
      saved := WindowState.BackupWindowState(pos, size, maximized);
      forall g: Geometry | !g.maximized
        ensures Restored(g, saved) == GeometryOf()
      {
        BackupRestoreRoundTrip(g, pos, size, maximized);
      }
    }

    /**
     * showWindow: choose the minimum size from the available width, which
     * enlarges a smaller window to it, then show.
     */
    method ShowWindow(availableWidth: int)
      modifies this`minimumSize, this`size, this`visible
      ensures minimumSize == MinimumSize(availableWidth) && visible
      ensures size == AtLeast(old(size), minimumSize)
    {
      if availableWidth > 1366 {
        minimumSize := Size(1208, 778);
      } else {
        minimumSize := Size(960, 716);
      }
      size := AtLeast(size, minimumSize);
      visible := true;
    }

    /** webViewGoBack: go back only when the page can. */
    method WebViewGoBack()
      modifies page
      ensures CanGoBack(old(page.history)) ==> page.history == Back(old(page.history))
      ensures !CanGoBack(old(page.history)) ==> page.history == old(page.history)
    {
      if CanGoBack(page.history) {
        page.GoBack();
      }
    }

    /** webViewGoForward: go forward only when the page can. */
    method WebViewGoForward()
      modifies page
      ensures CanGoForward(old(page.history)) ==> page.history == Forward(old(page.history))
      ensures !CanGoForward(old(page.history)) ==> page.history == old(page.history)
    {
      if CanGoForward(page.history) {
        page.GoForward();
      }
    }

    /** prepareSearch: query the edit's text unless it is invalid, after recording it as keyword. */
    method PrepareSearch(entered: bool)
      requires Valid()
      modifies this`keyword, this`effects
      ensures Valid()
      ensures SearchStateOf() == Search.PrepareSearch(old(SearchStateOf()), entered)
    {
      var text := searchText;
      if |text| <= 1 || ContainsSpecialChar(text) {
        return;
      }
      keyword := text;
      if entered {
        effects := effects + [CompleteSearchApp(text)];
      } else {
        effects := effects + [SearchApp(text)];
      }
    }

    /** onSearchEditFocusOut: hide the completion window after a short single shot. */
    method OnSearchEditFocusOut()
      requires Valid()
      modifies this`effects
      ensures Valid()
      ensures SearchStateOf() == Search.OnSearchEditFocusOut(old(SearchStateOf()))
    {
      effects := effects + [ScheduleHideCompletion];
    }

    /** onSearchTextChanged: stop and restart the timer for a long text, else hide the completion window. */
    method OnSearchTextChanged(text: string)
      requires Valid()
      modifies this`timerActive, this`timerInterval, this`effects
      ensures Valid()
      ensures SearchStateOf() == Search.OnSearchTextChanged(old(SearchStateOf()), text)
    {
      if |text| > 1 {
        timerActive := false;
        timerActive, timerInterval := true, SearchDelay;
      } else {
        OnSearchEditFocusOut();
      }
    }

    /** onSearchTextChangedDelay: a partial search. */
    method OnSearchTextChangedDelay()
      requires Valid()
      modifies this`keyword, this`effects
      ensures Valid()
      ensures SearchStateOf() == Search.PrepareSearch(old(SearchStateOf()), false)
    {
      PrepareSearch(false);
    }

    /** onSearchButtonClicked: a complete search. */
    method OnSearchButtonClicked()
      requires Valid()
      modifies this`keyword, this`effects
      ensures Valid()
      ensures SearchStateOf() == Search.PrepareSearch(old(SearchStateOf()), true)
    {
      PrepareSearch(true);
    }

    /** The search timer's timeout: a single shot stops the timer before the slot runs. */
    method OnSearchTimerTimeout()
      requires Valid()
      modifies this`timerActive, this`keyword, this`effects
      ensures Valid()
      ensures SearchStateOf() == OnTimerTimeout(old(SearchStateOf()))
    {
      if timerActive {
        timerActive := false;
        OnSearchTextChangedDelay();
      }
    }

    /** onTitleBarEntered: forward Enter to the completion window only for a long text. */
    method OnTitleBarEntered()
      requires Valid()
      modifies this`effects
      ensures Valid()
      ensures SearchStateOf() == Search.OnTitleBarEntered(old(SearchStateOf()))
    {
      if |searchText| > 1 {
        effects := effects + [ForwardEnter];
      }
    }

    /** onCompleteSearchAppResult: open the list of result names under the keyword, then hide. */
    method OnCompleteSearchAppResult(query: string, result: seq<SearchMeta>)
      requires Valid()
      modifies this`effects
      ensures Valid()
      ensures SearchStateOf() == Search.OnCompleteSearchAppResult(old(SearchStateOf()), result)
    {
      var names := CollectNames(result);
      effects := effects + [OpenAppList(keyword, names), HideCompletion];
    }

    /**
     * The search signals as initConnections wires them: the title bar's text
     * change (after the edit holds the new text), the timer's timeout, the
     * search button, Enter, focus out and the complete results.
     */
    method Dispatch(e: Event)
      requires Valid()
      modifies this`searchText, this`timerActive, this`timerInterval, this`keyword, this`effects
      ensures Valid()
      ensures SearchStateOf() == Step(old(SearchStateOf()), e)
    {
      match e
      case TextChanged(text) =>
        searchText := text;
        OnSearchTextChanged(text);
      case TimerTimeout =>
        OnSearchTimerTimeout();
      case SearchButtonClicked =>
        OnSearchButtonClicked();
      case EnterPressed =>
        OnTitleBarEntered();
      case FocusOut =>
        OnSearchEditFocusOut();
      case CompleteResult(query, result) =>
        OnCompleteSearchAppResult(query, result);
    }
  }
}
