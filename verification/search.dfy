/**
 * The search-input controller of the store's main window, as pure values.
 *
 * The title bar's search edit, the single-shot search timer, the completion
 * window's keyword and the calls the window makes on the search manager, the
 * completion window and the web-side search proxy are collected in one
 * SearchState. Every signal the window reacts to is an Event, and Step gives
 * the state after the slot connected to that signal has run. The class
 * WebWindow (web_window.dfy) holds the same state in fields and its methods
 * are proved against these functions.
 */
module Search {

  /** kSearchDelay: the interval the search timer is (re)started with. */
  const SearchDelay: int := 200

  /** A character of the class `[+$.^!@#%&()]` that the window's search_re_ matches. */
  predicate IsSpecialChar(c: char)
  {
    c in {'+', '$', '.', '^', '!', '@', '#', '%', '&', '(', ')'}
  }

  /** Whether the regular expression matches anywhere in the text. */
  function ContainsSpecialChar(text: string): (r: bool)
    ensures r <==> exists i :: 0 <= i < |text| && IsSpecialChar(text[i])
  {
    if text == [] then false
    else if IsSpecialChar(text[0]) then true
    else
      var rest := ContainsSpecialChar(text[1..]);
      assert forall i :: 1 <= i < |text| ==> text[i] == text[1..][i - 1];
      rest
  }

  /** The guard of prepareSearch: a text it refuses to search for. */
  function IsInvalidSearchText(text: string): (invalid: bool)
    ensures invalid <==> |text| <= 1 || exists i :: 0 <= i < |text| && IsSpecialChar(text[i])
  {
    |text| <= 1 || ContainsSpecialChar(text)
  }

  /** One entry of a list of search results; the model only needs its name. */
  datatype SearchMeta = SearchMeta(name: string)

  /** The names of the results, one per result, in the order of the results. */
  function ResultNames(result: seq<SearchMeta>): (names: seq<string>)
    ensures |names| == |result|
    ensures forall i :: 0 <= i < |result| ==> names[i] == result[i].name
  {
    if result == [] then [] else [result[0].name] + ResultNames(result[1..])
  }

  /** The loop of onCompleteSearchAppResult that appends each result's name. */
  method CollectNames(result: seq<SearchMeta>) returns (names: seq<string>)
    ensures |names| == |result|
    ensures forall i :: 0 <= i < |result| ==> names[i] == result[i].name
    ensures names == ResultNames(result)
  {
    names := [];
    var i := 0;
    while i < |result|
      invariant 0 <= i <= |result|
      invariant |names| == i
      invariant forall j :: 0 <= j < i ==> names[j] == result[j].name
    {
      names := names + [result[i].name];
      i := i + 1;
    }
  }

  /** What the window asks of its collaborators, in the order it asks. */
  datatype Effect =
    | SearchApp(text: string)                           // search_manager_->searchApp
    | CompleteSearchApp(text: string)                   // search_manager_->completeSearchApp
    | ScheduleHideCompletion                            // a 20 ms single shot that hides the completion window
    | HideCompletion                                    // completion_window_->hide()
    | ForwardEnter                                      // completion_window_->onEnterPressed()
    | OpenAppList(keyword: string, names: seq<string>)  // search_proxy_->openAppList

  /** An effect that sends a query to the search manager. */
  predicate IsQuery(e: Effect)
  {
    e.SearchApp? || e.CompleteSearchApp?
  }

  /**
   * text: what the title bar's search edit holds; timerActive, timerInterval:
   * the search timer; keyword: the completion window's keyword; effects: the
   * log of everything the window has asked of its collaborators.
   */
  datatype SearchState = SearchState(
    text: string,
    timerActive: bool,
    timerInterval: int,
    keyword: string,
    effects: seq<Effect>)

  /** A freshly built window: empty edit, idle timer, empty keyword, nothing asked. */
  const Initial: SearchState := SearchState("", false, 0, "", [])

  /** The signals the window's search slots are connected to. */
  datatype Event =
    | TextChanged(text: string)                               // TitleBar::searchTextChanged
    | TimerTimeout                                            // QTimer::timeout of the search timer
    | SearchButtonClicked                                     // SearchCompletionWindow::searchButtonClicked
    | EnterPressed                                            // TitleBar::enterPressed
    | FocusOut                                                // TitleBar::focusOut
    | CompleteResult(query: string, result: seq<SearchMeta>)  // SearchManager::completeSearchAppResult

  /** The log of r continues the log of s: what was asked before stays asked, in order. */
  predicate LogExtends(s: SearchState, r: SearchState)
  {
    |s.effects| <= |r.effects| && r.effects[..|s.effects|] == s.effects
  }

  /** None of the effects r added to the log of s sends a query. */
  predicate NoQueryAdded(s: SearchState, r: SearchState)
    requires LogExtends(s, r)
  {
    forall i :: |s.effects| <= i < |r.effects| ==> !IsQuery(r.effects[i])
  }

  /**
   * prepareSearch: refuse an invalid text, otherwise record it as keyword and
   * query it. It leaves the edit and the timer alone, adds at most one effect
   * and keeps the invariant.
   */
  function PrepareSearch(s: SearchState, entered: bool): (r: SearchState)
    ensures r.text == s.text && r.timerActive == s.timerActive && r.timerInterval == s.timerInterval
    ensures LogExtends(s, r) && |r.effects| <= |s.effects| + 1
    ensures Inv(s) ==> Inv(r)
  {
    if IsInvalidSearchText(s.text) then s
    else
      var query := if entered then CompleteSearchApp(s.text) else SearchApp(s.text);
      s.(keyword := s.text, effects := s.effects + [query])
  }

  /** onSearchEditFocusOut: schedule hiding the completion window; only the log changes, and by no query. */
  function OnSearchEditFocusOut(s: SearchState): (r: SearchState)
    ensures r.(effects := s.effects) == s
    ensures LogExtends(s, r) && |r.effects| == |s.effects| + 1 && NoQueryAdded(s, r)
    ensures Inv(s) ==> Inv(r)
  {
    s.(effects := s.effects + [ScheduleHideCompletion])
  }

  /**
   * onSearchTextChanged: restart the timer for a long text, else schedule a
   * hide. The timer runs afterwards iff it ran before or the text is long; the
   * keyword is untouched and no query is sent.
   */
  function OnSearchTextChanged(s: SearchState, text: string): (r: SearchState)
    ensures r.text == s.text && r.keyword == s.keyword
    ensures r.timerActive <==> s.timerActive || |text| > 1
    ensures |text| > 1 ==> r.timerInterval == SearchDelay
    ensures LogExtends(s, r) && NoQueryAdded(s, r)
    ensures Inv(s) ==> Inv(r)
  {
    if |text| > 1 then s.(timerActive := true, timerInterval := SearchDelay)
    else OnSearchEditFocusOut(s)
  }

  /**
   * The single-shot timer fires only while active, stops, and runs
   * onSearchTextChangedDelay: afterwards the timer is idle, and the only effect
   * added, if any, is a partial search of the edit's text.
   */
  function OnTimerTimeout(s: SearchState): (r: SearchState)
    ensures !r.timerActive && r.text == s.text
    ensures LogExtends(s, r) && |r.effects| <= |s.effects| + 1
    ensures forall i :: |s.effects| <= i < |r.effects| ==> r.effects[i] == SearchApp(s.text)
    ensures s.timerActive && !IsInvalidSearchText(s.text) ==> r.keyword == s.text && r.effects == s.effects + [SearchApp(s.text)]
    ensures !s.timerActive || IsInvalidSearchText(s.text) ==> r.keyword == s.keyword && r.effects == s.effects
    ensures Inv(s) ==> Inv(r)
  {
    if s.timerActive then PrepareSearch(s.(timerActive := false), false) else s
  }

  /** onTitleBarEntered: forward Enter to the completion window for a long text; only the log changes. */
  function OnTitleBarEntered(s: SearchState): (r: SearchState)
    ensures r.(effects := s.effects) == s
    ensures LogExtends(s, r) && (|r.effects| > |s.effects| <==> |s.text| > 1)
    ensures forall i :: |s.effects| <= i < |r.effects| ==> r.effects[i] == ForwardEnter
    ensures Inv(s) ==> Inv(r)
  {
    if |s.text| > 1 then s.(effects := s.effects + [ForwardEnter]) else s
  }

  /**
   * onCompleteSearchAppResult: open the result list under the current keyword,
   * then hide. Only the log changes, by two effects, neither a query.
   */
  function OnCompleteSearchAppResult(s: SearchState, result: seq<SearchMeta>): (r: SearchState)
    ensures r.(effects := s.effects) == s
    ensures LogExtends(s, r) && |r.effects| == |s.effects| + 2 && NoQueryAdded(s, r)
    ensures Inv(s) ==> Inv(r)
  {
    s.(effects := s.effects + [OpenAppList(s.keyword, ResultNames(result)), HideCompletion])
  }

  /** The state after the slot connected to the event's signal has run. */
  function Step(s: SearchState, e: Event): SearchState
  {
    match e
    case TextChanged(text) => OnSearchTextChanged(s.(text := text), text)
    case TimerTimeout => OnTimerTimeout(s)
    case SearchButtonClicked => PrepareSearch(s, true)
    case EnterPressed => OnTitleBarEntered(s)
    case FocusOut => OnSearchEditFocusOut(s)
    case CompleteResult(_, result) => OnCompleteSearchAppResult(s, result)
  }

  /** The state after a sequence of events, one after the other. */
  function Run(s: SearchState, es: seq<Event>): SearchState
    decreases |es|
  {
    if es == [] then s else Run(Step(s, es[0]), es[1..])
  }

  /**
   * What every reachable state satisfies: a running timer runs with the search
   * delay, every query is for a valid search text, and the keyword (recorded or
   * used for a result list) is empty or a valid search text.
   */
  predicate Inv(s: SearchState)
  {
    && (s.timerActive ==> s.timerInterval == SearchDelay)
    && (s.keyword == "" || !IsInvalidSearchText(s.keyword))
    && (forall e | e in s.effects :: ValidEffect(e))
  }

  /** A query is for a valid text, and a result list is opened under an empty or valid keyword. */
  predicate ValidEffect(e: Effect)
  {
    && (IsQuery(e) ==> !IsInvalidSearchText(e.text))
    && (e.OpenAppList? ==> e.keyword == "" || !IsInvalidSearchText(e.keyword))
  }

  lemma InitialInv()
    ensures Inv(Initial)
  {
  }

  /** Invalid text: prepareSearch queries nothing and leaves the keyword alone. */
  lemma PrepareSearchRejectsInvalid(s: SearchState, entered: bool)
    requires IsInvalidSearchText(s.text)
    ensures PrepareSearch(s, entered) == s
  {
  }

  /**
   * Valid text: prepareSearch records the text as keyword and sends exactly
   * one query for it, a complete search when entered and a partial one otherwise.
   */
  lemma PrepareSearchDispatchesOnce(s: SearchState, entered: bool)
    requires !IsInvalidSearchText(s.text)
    ensures var r := PrepareSearch(s, entered);
      && r.keyword == s.text
      && |r.effects| == |s.effects| + 1
      && r.effects[..|s.effects|] == s.effects
      && IsQuery(r.effects[|s.effects|])
      && r.effects[|s.effects|].text == s.text
      && (r.effects[|s.effects|].CompleteSearchApp? <==> entered)
      && r.text == s.text && r.timerActive == s.timerActive && r.timerInterval == s.timerInterval
  {
  }

  /** A long text stops and restarts the timer with the search delay, and asks for nothing. */
  lemma LongTextRestartsTimer(s: SearchState, text: string)
    requires |text| > 1
    ensures Step(s, TextChanged(text)) == s.(text := text, timerActive := true, timerInterval := SearchDelay)
  {
  }

  /** A short text leaves the timer as it was and only schedules hiding the completion window. */
  lemma ShortTextLeavesTimer(s: SearchState, text: string)
    requires |text| <= 1
    ensures Step(s, TextChanged(text)) == s.(text := text, effects := s.effects + [ScheduleHideCompletion])
  {
  }

  /** A timeout with no running timer is never delivered, so it changes nothing. */
  lemma IdleTimeoutIgnored(s: SearchState)
    requires !s.timerActive
    ensures Step(s, TimerTimeout) == s
  {
  }

  /** Enter is forwarded to the completion window exactly when the text is longer than one character. */
  lemma EnterForwardedOnlyForLongText(s: SearchState)
    ensures var r := Step(s, EnterPressed);
      && (|s.text| > 1 ==> r.effects == s.effects + [ForwardEnter])
      && (|s.text| <= 1 ==> r == s)
  {
  }

  /**
   * The complete-results list is opened under the completion window's keyword
   * (the keyword the result signal carries is ignored), with one name per
   * result in result order, and the completion window is hidden.
   */
  lemma CompleteResultOpensList(s: SearchState, query: string, result: seq<SearchMeta>)
    ensures var r := Step(s, CompleteResult(query, result));
      && r.effects == s.effects + [OpenAppList(s.keyword, ResultNames(result)), HideCompletion]
      && |r.effects[|s.effects|].names| == |result|
      && (forall i :: 0 <= i < |result| ==> r.effects[|s.effects|].names[i] == result[i].name)
      && r.keyword == s.keyword && r.text == s.text && r.timerActive == s.timerActive
  {
  }

  /**
   * Submitting a valid text and then receiving its complete results opens the
   * list under the submitted text: the keyword set before the query labels the reply.
   */
  lemma SubmitThenResultOpensListForText(s: SearchState, query: string, result: seq<SearchMeta>)
    requires !IsInvalidSearchText(s.text)
    ensures Run(s, [SearchButtonClicked, CompleteResult(query, result)]).effects
         == s.effects + [CompleteSearchApp(s.text), OpenAppList(s.text, ResultNames(result)), HideCompletion]
  {
    var s1 := Step(s, SearchButtonClicked);
    assert [SearchButtonClicked, CompleteResult(query, result)][1..] == [CompleteResult(query, result)];
    assert Run(s, [SearchButtonClicked, CompleteResult(query, result)]) == Run(s1, [CompleteResult(query, result)]);
    assert Run(s1, [CompleteResult(query, result)]) == Run(Step(s1, CompleteResult(query, result)), []);
    assert s1.keyword == s.text && s1.effects == s.effects + [CompleteSearchApp(s.text)];
  }

  lemma StepPreservesInv(s: SearchState, e: Event)
    requires Inv(s)
    ensures Inv(Step(s, e))
  {
  }

  /** Every state reached by any sequence of events keeps the invariant: no invalid text is ever queried. */
  lemma {:induction false} RunPreservesInv(s: SearchState, es: seq<Event>)
    requires Inv(s)
    ensures Inv(Run(s, es))
    decreases |es|
  {
    if es != [] {
      StepPreservesInv(s, es[0]);
      RunPreservesInv(Step(s, es[0]), es[1..]);
    }
  }

  /** Running two sequences one after the other is running their concatenation. */
  lemma {:induction false} RunAppend(s: SearchState, a: seq<Event>, b: seq<Event>)
    ensures Run(s, a + b) == Run(Run(s, a), b)
    decreases |a|
  {
    if a == [] {
      assert a + b == b;
    } else {
      assert (a + b)[0] == a[0];
      assert (a + b)[1..] == a[1..] + b;
      RunAppend(Step(s, a[0]), a[1..], b);
    }
  }

  /** A burst: a sequence of text changes with no timeout in between. */
  predicate IsBurst(es: seq<Event>)
  {
    forall i :: 0 <= i < |es| ==> es[i].TextChanged?
  }

  /** Some change of the burst has a text longer than one character. */
  predicate HasLongChange(es: seq<Event>)
  {
    exists i :: 0 <= i < |es| && es[i].TextChanged? && |es[i].text| > 1
  }

  /**
   * During a burst of text changes nothing is queried and the keyword stays as
   * it was; the window only schedules hides. The edit ends with the last text,
   * and the timer runs, with the search delay, exactly when it ran before or
   * some change was long.
   */
  lemma {:induction false} BurstQueriesNothing(s: SearchState, es: seq<Event>)
    requires IsBurst(es)
    ensures var r := Run(s, es);
      && r.keyword == s.keyword
      && |s.effects| <= |r.effects|
      && r.effects[..|s.effects|] == s.effects
      && (forall i :: |s.effects| <= i < |r.effects| ==> r.effects[i] == ScheduleHideCompletion)
      && r.text == (if es == [] then s.text else es[|es| - 1].text)
      && (r.timerActive <==> s.timerActive || HasLongChange(es))
      && r.timerInterval == (if HasLongChange(es) then SearchDelay else s.timerInterval)
    decreases |es|
  {
    if es != [] {
      var s1 := Step(s, es[0]);
      var tail := es[1..];
      assert IsBurst(tail) by {
        forall i | 0 <= i < |tail| ensures tail[i].TextChanged? {
          assert tail[i] == es[i + 1];
        }
      }
      BurstQueriesNothing(s1, tail);
      var r := Run(s1, tail);
      assert r == Run(s, es);
      assert HasLongChange(es) <==> |es[0].text| > 1 || HasLongChange(tail) by {
        if HasLongChange(tail) {
          var i :| 0 <= i < |tail| && tail[i].TextChanged? && |tail[i].text| > 1;
          assert es[i + 1] == tail[i];
        }
        if HasLongChange(es) && |es[0].text| <= 1 {
          var i :| 0 <= i < |es| && es[i].TextChanged? && |es[i].text| > 1;
          assert i > 0 && tail[i - 1] == es[i];
        }
        if |es[0].text| > 1 {
          assert es[0].TextChanged?;
        }
      }
      assert s1.effects[..|s.effects|] == s.effects;
      assert r.effects[..|s.effects|] == r.effects[..|s1.effects|][..|s.effects|];
      if tail != [] {
        assert tail[|tail| - 1] == es[|es| - 1];
      }
    }
  }

  /**
   * Debounce: after a burst that restarted the timer, its expiry sends exactly
   * one partial search, for the text current at expiry, when that text is
   * valid, and none otherwise; the timer is then idle, so a further timeout
   * adds nothing.
   */
  lemma DebounceFiresOnce(s: SearchState, es: seq<Event>)
    requires IsBurst(es) && es != [] && HasLongChange(es)
    ensures var b := Run(s, es);
      var r := Run(s, es + [TimerTimeout]);
      && b.text == es[|es| - 1].text
      && !r.timerActive
      && r.effects == b.effects + (if IsInvalidSearchText(b.text) then [] else [SearchApp(b.text)])
      && Run(s, es + [TimerTimeout, TimerTimeout]) == r
  {
    BurstQueriesNothing(s, es);
    var b := Run(s, es);
    RunAppend(s, es, [TimerTimeout]);
    RunAppend(s, es, [TimerTimeout, TimerTimeout]);
    var r := Step(b, TimerTimeout);
    assert Run(b, [TimerTimeout]) == Run(r, []);
    assert [TimerTimeout, TimerTimeout][1..] == [TimerTimeout];
    assert Run(b, [TimerTimeout, TimerTimeout]) == Run(Step(r, TimerTimeout), []);
  }
}
