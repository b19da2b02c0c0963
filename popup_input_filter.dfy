// src/popup_input_filter.cpp: the input filter that keeps the stack of
// windows holding a popup grab and cancels them all on a press or touch
// outside the popup's application. Finding the toplevel under a position and
// belongToSameApplication are not part of this model: their results are
// parameters of the event handlers.
module PopupInputFilters {
  import opened Common

  /** Windows are referred to by id. */
  type ClientId = nat

  /** What the filter does besides changing its list. */
  datatype PopupEvent = PopupDone(client: ClientId) | KeyboardFocused(surface: nat) | KeyForwarded

  /** The kinds of mouse event the filter sees. */
  datatype MouseEventType = MouseButtonPress | OtherMouseEvent

  /**
   * The toplevel found under the event position: whether it is a client,
   * whether it belongs to the same application as the newest popup, whether
   * it has a decoration, and its client position, client size and position.
   */
  datatype Toplevel = Toplevel(isClient: bool, sameApplication: bool, decorated: bool,
                               clientPos: Point, clientSize: Size, pos: Point)

  /** QRect::contains along one axis, for a rectangle starting at start with extent len. */
  predicate SpanContains(start: int, len: int, v: int)
  {
    if len >= 0 then start <= v <= start + len - 1 else start + len - 1 <= v <= start
  }

  /** QRect::contains(QPoint). */
  predicate RectContains(r: Rect, p: Point)
  {
    SpanContains(r.topLeft.x, r.size.width, p.x) && SpanContains(r.topLeft.y, r.size.height, p.y)
  }

  /** An empty rectangle contains no point; a positive one exactly the points of its half-open span. */
  lemma RectContainsBounds(r: Rect, p: Point)
    ensures r.size.width == 0 || r.size.height == 0 ==> !RectContains(r, p)
    ensures r.size.width > 0 && r.size.height > 0 ==>
      (RectContains(r, p) <==> r.topLeft.x <= p.x < r.topLeft.x + r.size.width && r.topLeft.y <= p.y < r.topLeft.y + r.size.height)
  {
  }

  /** The client rectangle of a window, QRect(clientPos, clientSize) translated by its position. */
  function ClientRect(t: Toplevel): (r: Rect)
    ensures r.size == t.clientSize
    ensures r.topLeft == Point(t.clientPos.x + t.pos.x, t.clientPos.y + t.pos.y)
  {
    Rect(Point(t.clientPos.x + t.pos.x, t.clientPos.y + t.pos.y), t.clientSize)
  }

  /**
   * A press or touch at p cancels the popups: on no window, a toplevel that
   * is not a client, another application's window, or a decorated window
   * outside its client rectangle.
   */
  predicate CancelsPopups(under: Option<Toplevel>, p: Point)
  {
    under.None? || !under.value.isClient || !under.value.sameApplication
    || (under.value.decorated && !RectContains(ClientRect(under.value), p))
  }

  /** Inside the client area of a window of the popup's own application, the press goes through. */
  lemma CancelsPopupsInsideClient(t: Toplevel, p: Point)
    requires t.isClient && t.sameApplication
    ensures CancelsPopups(Some(t), p) <==> t.decorated && !RectContains(ClientRect(t), p)
    ensures !t.decorated ==> !CancelsPopups(Some(t), p)
  {
  }

  /** The popupDone calls of cancelPopups on the list s: the newest popup first. */
  function PopupsDone(s: seq<ClientId>): (r: seq<PopupEvent>)
    ensures |r| == |s|
    ensures forall k :: 0 <= k < |r| ==> r[k] == PopupDone(s[|s| - 1 - k])
  {
    if s == [] then [] else [PopupDone(s[|s| - 1])] + PopupsDone(s[..|s| - 1])
  }

  /** Every popup of the list is told exactly as often as it occurs in it. */
  lemma PopupsDoneEach(s: seq<ClientId>, c: ClientId)
    requires NoDup(s)
    ensures PopupDone(c) in PopupsDone(s) <==> c in s
    ensures forall i, j :: 0 <= i < j < |s| ==> PopupsDone(s)[i] != PopupsDone(s)[j]
  {
    var r := PopupsDone(s);
    if c in s {
      var i :| 0 <= i < |s| && s[i] == c;
      assert r[|s| - 1 - i] == PopupDone(c);
    }
  }

  /** handleClientAdded on the list s. */
  function ClientAdded(s: seq<ClientId>, c: ClientId, hasPopupGrab: bool): (r: seq<ClientId>)
    ensures c in r <==> c in s || hasPopupGrab
    ensures r == s || (r == s + [c] && c !in s)
  {
    if c in s then s
    else if hasPopupGrab then s + [c]
    else s
  }

  /** Adding never makes the list hold a window twice. */
  lemma ClientAddedNoDup(s: seq<ClientId>, c: ClientId, hasPopupGrab: bool)
    requires NoDup(s)
    ensures NoDup(ClientAdded(s, c, hasPopupGrab))
  {
    if c !in s && hasPopupGrab {
      NoDupSnoc(s, c);
    }
  }

  /** removeOne drops exactly the first occurrence of x and keeps the order of the rest. */
  lemma {:induction false} RemoveOneDropsFirst(s: seq<ClientId>, x: ClientId) returns (i: nat)
    requires x in s
    ensures i < |s| && s[i] == x && x !in s[..i]
    ensures RemoveOne(s, x) == s[..i] + s[i + 1..]
  {
    if s[0] == x {
      i := 0;
    } else {
      var t := s[1..];
      var j := RemoveOneDropsFirst(t, x);
      i := j + 1;
      assert RemoveOne(s, x) == [s[0]] + RemoveOne(t, x);
      assert s[..i] == [s[0]] + t[..j];
      assert s[i + 1..] == t[j + 1..];
    }
  }

  /** PopupInputFilter: the popups with a grab, oldest first. */
  class PopupInputFilter {
    var popupClients: seq<ClientId>
    var events: seq<PopupEvent>

    /** No window is tracked twice. */
    predicate Valid()
      reads this
    {
      NoDup(popupClients)
    }

    constructor()
      ensures Valid() && popupClients == [] && events == []
    {
      popupClients, events := [], [];
    }

    /** handleClientAdded: tracked if it has a popup grab and is not tracked yet. */
    method HandleClientAdded(c: ClientId, hasPopupGrab: bool)
      requires Valid()
      modifies this`popupClients
      ensures Valid()
      ensures popupClients == ClientAdded(old(popupClients), c, hasPopupGrab)
    {
      ClientAddedNoDup(popupClients, c, hasPopupGrab);
      if c in popupClients {
        return;
      }
      if hasPopupGrab {
        popupClients := popupClients + [c];
      }
    }

    /** handleClientRemoved: removeOne. */
    method HandleClientRemoved(c: ClientId)
      requires Valid()
      modifies this`popupClients
      ensures Valid()
      ensures popupClients == RemoveOne(old(popupClients), c)
      ensures c !in popupClients
    {
      RemoveOneGone(popupClients, c);
      popupClients := RemoveOne(popupClients, c);
    }

    /** cancelPopups: takes the popups off the end of the list one by one. */
    method CancelPopups()
      modifies this`popupClients, this`events
      ensures popupClients == []
      ensures events == old(events) + PopupsDone(old(popupClients))
    {
      while popupClients != []
        invariant events + PopupsDone(popupClients) == old(events) + PopupsDone(old(popupClients))
        decreases |popupClients|
      {
        var c := popupClients[|popupClients| - 1];
        popupClients := popupClients[..|popupClients| - 1];
        events := events + [PopupDone(c)];
      }
    }

    /**
     * pointerEvent: with popups tracked, a press that cancels them is
     * consumed; everything else passes.
     */
    method PointerEvent(kind: MouseEventType, p: Point, under: Option<Toplevel>) returns (consumed: bool)
      modifies this`popupClients, this`events
      ensures consumed <==> old(popupClients) != [] && kind == MouseButtonPress && CancelsPopups(under, p)
      ensures popupClients == if consumed then [] else old(popupClients)
      ensures events == old(events) + if consumed then PopupsDone(old(popupClients)) else []
    {
      if popupClients == [] {
        return false;
      }
      if kind == MouseButtonPress {
        var focus := if under.Some? && under.value.isClient then under else None;
        if focus.None? || !focus.value.sameApplication {
          CancelPopups();
          return true;
        }
        if focus.value.decorated {
          var clientRect := ClientRect(focus.value);
          if !RectContains(clientRect, p) {
            CancelPopups();
            return true;
          }
        }
      }
      return false;
    }

    /**
     * keyEvent, given the surface of each window: with a newest popup that
     * has a surface, the keyboard focus moves to it and the key is passed on.
     */
    method KeyEvent(surfaceOf: ClientId -> Option<nat>) returns (consumed: bool)
      modifies this`events
      ensures consumed <==> popupClients != [] && surfaceOf(popupClients[|popupClients| - 1]).Some?
      ensures events == old(events)
        + if consumed then [KeyboardFocused(surfaceOf(popupClients[|popupClients| - 1]).value), KeyForwarded] else []
    {
      if popupClients == [] {
        return false;
      }
      var last := popupClients[|popupClients| - 1];
      var surface := surfaceOf(last);
      if surface.None? {
        return false;
      }
      events := events + [KeyboardFocused(surface.value), KeyForwarded];
      return true;
    }

    /** touchDown: like a press, for every touch. */
    method TouchDown(p: Point, under: Option<Toplevel>) returns (consumed: bool)
      modifies this`popupClients, this`events
      ensures consumed <==> old(popupClients) != [] && CancelsPopups(under, p)
      ensures popupClients == if consumed then [] else old(popupClients)
      ensures events == old(events) + if consumed then PopupsDone(old(popupClients)) else []
    {
      if popupClients == [] {
        return false;
      }
      var focus := if under.Some? && under.value.isClient then under else None;
      if focus.None? || !focus.value.sameApplication {
        CancelPopups();
        return true;
      }
      if focus.value.decorated {
        var clientRect := ClientRect(focus.value);
        if !RectContains(clientRect, p) {
          CancelPopups();
          return true;
        }
      }
      return false;
    }
  }
}
