// src/decorations/decoratedclient.cpp: what a window decoration sees of its
// window: the cached client size and the notifications that keep it current,
// the maximization state and the screen edges a quick-tiled window touches.
module DecoratedClients {
  import opened Common

  /** QuickTileFlag: a quick-tile mode is a set of these (Maximize is all four). */
  datatype TileFlag = TileLeft | TileRight | TileTop | TileBottom

  /** Qt::Edge. */
  datatype Edge = LeftEdge | TopEdge | RightEdge | BottomEdge

  /** MaximizeMode: Restore = 0, Vertical = 1, Horizontal = 2, Full = 3. */
  datatype MaximizeMode = MaximizeRestore | MaximizeVertical | MaximizeHorizontal | MaximizeFull

  function MaximizeModeValue(m: MaximizeMode): nat
  {
    match m
    case MaximizeRestore => 0
    case MaximizeVertical => 1
    case MaximizeHorizontal => 2
    case MaximizeFull => 3
  }

  /** isMaximizedVertically: the MaximizeVertical bit (1) of the requested mode. */
  function MaximizedVertically(m: MaximizeMode): (b: bool)
    ensures b <==> m == MaximizeVertical || m == MaximizeFull
  {
    MaximizeModeValue(m) % 2 == 1
  }

  /** isMaximizedHorizontally: the MaximizeHorizontal bit (2) of the requested mode. */
  function MaximizedHorizontally(m: MaximizeMode): (b: bool)
    ensures b <==> m == MaximizeHorizontal || m == MaximizeFull
  {
    (MaximizeModeValue(m) / 2) % 2 == 1
  }

  /** isMaximized: both bits. */
  function Maximized(m: MaximizeMode): (b: bool)
    ensures b <==> m == MaximizeFull
  {
    MaximizedHorizontally(m) && MaximizedVertically(m)
  }

  /** A Left or Right tile that is neither Top nor Bottom covers the whole height of the screen. */
  predicate FullHeightSide(mode: set<TileFlag>)
  {
    (TileLeft in mode || TileRight in mode) && TileTop !in mode && TileBottom !in mode
  }

  /**
   * adjacentScreenEdges, step by step as the flags are checked: Left,
   * Top, Right, Bottom.
   */
  function TileEdges(mode: set<TileFlag>): (edges: set<Edge>)
    ensures LeftEdge in edges <==> TileLeft in mode
    ensures RightEdge in edges <==> TileRight in mode
    ensures TopEdge in edges <==> TileTop in mode || FullHeightSide(mode)
    ensures BottomEdge in edges <==> TileBottom in mode || FullHeightSide(mode)
  {
    var fullHeight := TileTop !in mode && TileBottom !in mode;
    var e1 := if TileLeft in mode then {LeftEdge} + (if fullHeight then {TopEdge, BottomEdge} else {}) else {};
    var e2 := if TileTop in mode then e1 + {TopEdge} else e1;
    var e3 := if TileRight in mode then e2 + {RightEdge} + (if fullHeight then {TopEdge, BottomEdge} else {}) else e2;
    if TileBottom in mode then e3 + {BottomEdge} else e3
  }

  /** No tile flags, no edges; a maximize tile touches all four edges. */
  lemma TileEdgesExtremes()
    ensures TileEdges({}) == {}
    ensures TileEdges({TileLeft, TileRight, TileTop, TileBottom}) == {LeftEdge, TopEdge, RightEdge, BottomEdge}
  {
    var none := TileEdges({});
    assert forall e :: e !in none by {
      forall e ensures e !in none {
        match e
        case LeftEdge =>
        case TopEdge =>
        case RightEdge =>
        case BottomEdge =>
      }
    }
    var all := TileEdges({TileLeft, TileRight, TileTop, TileBottom});
    assert forall e :: e in all by {
      forall e ensures e in all {
        match e
        case LeftEdge =>
        case TopEdge =>
        case RightEdge =>
        case BottomEdge =>
      }
    }
  }

  /** Without a Left or Right flag, the edges are exactly those of the Top and Bottom flags. */
  lemma TileEdgesWithoutSides(mode: set<TileFlag>)
    ensures TileLeft !in mode && TileRight !in mode ==>
      TileEdges(mode) == (if TileTop in mode then {TopEdge} else {}) + (if TileBottom in mode then {BottomEdge} else {})
  {
    if TileLeft !in mode && TileRight !in mode {
      var edges := TileEdges(mode);
      var expected := (if TileTop in mode then {TopEdge} else {}) + (if TileBottom in mode then {BottomEdge} else {});
      forall e ensures e in edges <==> e in expected {
        match e
        case LeftEdge =>
        case TopEdge =>
        case RightEdge =>
        case BottomEdge =>
      }
    }
  }

  /** What DecoratedClient announces to the decoration. */
  datatype DecorationSignal = WidthChanged(width: int) | HeightChanged(height: int) | SizeChanged(size: Size)

  /** The notifications for a client size going from old to new. */
  function SizeSignals(old': Size, new': Size): seq<DecorationSignal>
  {
    if new' == old' then []
    else
      (if old'.width != new'.width then [WidthChanged(new'.width)] else [])
      + (if old'.height != new'.height then [HeightChanged(new'.height)] else [])
      + [SizeChanged(new')]
  }

  /**
   * Nothing is announced for an unchanged size; otherwise exactly one
   * sizeChanged comes last, preceded by widthChanged and heightChanged
   * only for the dimensions that changed.
   */
  lemma SizeSignalsShape(old': Size, new': Size)
    ensures var s := SizeSignals(old', new');
      (s == [] <==> old' == new')
      && (s != [] ==> s[|s| - 1] == SizeChanged(new') && |s| == 1 + (if old'.width != new'.width then 1 else 0) + (if old'.height != new'.height then 1 else 0))
      && (WidthChanged(new'.width) in s <==> old'.width != new'.width)
      && (HeightChanged(new'.height) in s <==> old'.height != new'.height)
      && (forall k :: 0 <= k < |s| - 1 ==> !s[k].SizeChanged?)
  {
  }

  /** The window side the decoration reads. */
  class Window {
    var clientSize: Size
    var requestedMaximizeMode: MaximizeMode
    var quickTileMode: set<TileFlag>

    constructor(size: Size, maximize: MaximizeMode, tile: set<TileFlag>)
      ensures clientSize == size && requestedMaximizeMode == maximize && quickTileMode == tile
    {
      clientSize, requestedMaximizeMode, quickTileMode := size, maximize, tile;
    }
  }

  /** DecoratedClientImpl. */
  class DecoratedClientImpl {
    const client: Window
    /** The client size last announced to the decoration. */
    var clientSize: Size
    var events: seq<DecorationSignal>

    constructor(client: Window)
      ensures this.client == client && clientSize == client.clientSize && events == []
    {
      this.client := client;
      clientSize := client.clientSize;
      events := [];
    }

    function Width(): (w: int)
      reads this
      ensures w == Size().width
    {
      clientSize.width
    }

    function Height(): (h: int)
      reads this
      ensures h == Size().height
    {
      clientSize.height
    }

    function Size(): Common.Size
      reads this
    {
      clientSize
    }

    function IsMaximizedVertically(): bool
      reads this, client
    {
      MaximizedVertically(client.requestedMaximizeMode)
    }

    function IsMaximizedHorizontally(): bool
      reads this, client
    {
      MaximizedHorizontally(client.requestedMaximizeMode)
    }

    /** isMaximized: maximized in both directions. */
    function IsMaximized(): (b: bool)
      reads this, client
      ensures b <==> IsMaximizedHorizontally() && IsMaximizedVertically()
      ensures b <==> client.requestedMaximizeMode == MaximizeFull
    {
      Maximized(client.requestedMaximizeMode)
    }

    function AdjacentScreenEdges(): set<Edge>
      reads this, client
    {
      TileEdges(client.quickTileMode)
    }

    /** The clientGeometryChanged handler: re-reads the client size and announces what changed. */
    method HandleClientGeometryChanged()
      modifies this`clientSize, this`events
      ensures clientSize == client.clientSize
      ensures events == old(events) + SizeSignals(old(clientSize), client.clientSize)
    {
      if client.clientSize == clientSize {
        return;
      }
      var oldSize := clientSize;
      clientSize := client.clientSize;
      if oldSize.width != clientSize.width {
        events := events + [WidthChanged(clientSize.width)];
      }
      if oldSize.height != clientSize.height {
        events := events + [HeightChanged(clientSize.height)];
      }
      events := events + [SizeChanged(clientSize)];
    }
  }
}
