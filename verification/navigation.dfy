/**
 * The browser page's navigation history, as far as the main window relies on
 * it. The embedded browser itself is not part of this model: its history is
 * taken to be a stack of pages behind the current one and a stack of pages
 * ahead of it, and going back or forward moves one page between them.
 */
module Navigation {

  /** back: older pages, most recent last; forward: newer pages, nearest last. */
  datatype History = History(back: seq<string>, current: string, forward: seq<string>)

  predicate CanGoBack(h: History)
  {
    h.back != []
  }

  predicate CanGoForward(h: History)
  {
    h.forward != []
  }

  /** Going back: the most recent older page becomes current, the current page the nearest newer one. */
  function Back(h: History): (r: History)
    requires CanGoBack(h)
    ensures CanGoForward(r)
    ensures r.current == h.back[|h.back| - 1] && r.forward[|r.forward| - 1] == h.current
    ensures |r.back| + 1 == |h.back| && |r.forward| == |h.forward| + 1
  {
    History(h.back[..|h.back| - 1], h.back[|h.back| - 1], h.forward + [h.current])
  }

  /** Going forward: the nearest newer page becomes current, the current page the most recent older one. */
  function Forward(h: History): (r: History)
    requires CanGoForward(h)
    ensures CanGoBack(r)
    ensures r.current == h.forward[|h.forward| - 1] && r.back[|r.back| - 1] == h.current
    ensures |r.forward| + 1 == |h.forward| && |r.back| == |h.back| + 1
  {
    History(h.back + [h.current], h.forward[|h.forward| - 1], h.forward[..|h.forward| - 1])
  }

  /** Going back and then forward returns to the same history. */
  lemma ForwardUndoesBack(h: History)
    requires CanGoBack(h)
    ensures Forward(Back(h)) == h
  {
    var r := Forward(Back(h));
    assert r.back == h.back[..|h.back| - 1] + [h.back[|h.back| - 1]];
    assert r.back == h.back;
    assert r.forward == (h.forward + [h.current])[..|h.forward|];
    assert r.forward == h.forward;
  }

  /** Going forward and then back returns to the same history. */
  lemma BackUndoesForward(h: History)
    requires CanGoForward(h)
    ensures Back(Forward(h)) == h
  {
    var r := Back(Forward(h));
    assert r.forward == h.forward[..|h.forward| - 1] + [h.forward[|h.forward| - 1]];
    assert r.forward == h.forward;
    assert r.back == (h.back + [h.current])[..|h.back|];
    assert r.back == h.back;
  }

  /** The web view's page, whose history the window navigates. */
  class WebPage {
    var history: History

    constructor (url: string)
      ensures history == History([], url, [])
    {
      history := History([], url, []);
    }

    /** page->back(); the window calls it only after page->canGoBack(). */
    method GoBack()
      requires CanGoBack(history)
      modifies this
      ensures history == Back(old(history))
    {
      history := Back(history);
    }

    /** page->forward(); the window calls it only after page->canGoForward(). */
    method GoForward()
      requires CanGoForward(history)
      modifies this
      ensures history == Forward(old(history))
    {
      history := Forward(history);
    }
  }
}
