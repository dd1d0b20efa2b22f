/**
 * Window geometry persistence and the minimum-size rule of the main window.
 *
 * The saved window state is a map from the keys "pos", "size" and
 * "isMaximized" to variant values; its byte encoding in the settings store is
 * not part of this model. Restoring a map is the sequence of window actions it
 * calls for (resize, move, show maximized), applied to the window's geometry.
 */
module WindowState {

  /** A window position (QPoint). */
  datatype Point = Point(x: int, y: int)

  /** A window size (QSize); the default-constructed, invalid size is -1 x -1. */
  datatype Size = Size(width: int, height: int)

  /** The variant values stored in the state map. */
  datatype Variant = PointValue(point: Point) | SizeValue(size: Size) | BoolValue(flag: bool)

  /** The saved window state (a QVariantMap). */
  type StateMap = map<string, Variant>

  const PosKey: string := "pos"
  const SizeKey: string := "size"
  const MaximizedKey: string := "isMaximized"

  /** QVariant::toSize: the stored size, or the invalid size for any other kind of value. */
  function ToSize(v: Variant): Size
  {
    if v.SizeValue? then v.size else Size(-1, -1)
  }

  /** QVariant::toPoint: the stored point, or the origin for any other kind of value. */
  function ToPoint(v: Variant): Point
  {
    if v.PointValue? then v.point else Point(0, 0)
  }

  /** QVariant::toBool: the stored flag, or false for a point or a size. */
  function ToBool(v: Variant): bool
  {
    if v.BoolValue? then v.flag else false
  }

  /** QVariantMap::value(key, default). */
  function ValueOr(m: StateMap, key: string, default: Variant): Variant
  {
    if key in m then m[key] else default
  }

  /** BackupWindowState: the state map saved for a window at pos, of size, maximized or not. */
  function BackupWindowState(pos: Point, size: Size, isMaximized: bool): (m: StateMap)
    ensures m.Keys == {PosKey, SizeKey, MaximizedKey}
  {
    map[PosKey := PointValue(pos), SizeKey := SizeValue(size), MaximizedKey := BoolValue(isMaximized)]
  }

  /** The calls RestoreWindowState makes on the window. */
  datatype WindowAction = Resize(size: Size) | Move(pos: Point) | ShowMaximized

  /** The position of an action in the restore order: resize, move, maximize. */
  function ActionRank(a: WindowAction): nat
  {
    match a
    case Resize(_) => 0
    case Move(_) => 1
    case ShowMaximized => 2
  }

  /**
   * RestoreWindowState: resize if a size is saved, then move if a position is
   * saved, then show maximized if the saved flag (false when absent) is true.
   */
  function RestoreActions(m: StateMap): (actions: seq<WindowAction>)
    ensures forall i, j :: 0 <= i < j < |actions| ==> ActionRank(actions[i]) < ActionRank(actions[j])
    ensures forall i :: 0 <= i < |actions| ==> (actions[i].Resize? ==> SizeKey in m && actions[i].size == ToSize(m[SizeKey]))
    ensures forall i :: 0 <= i < |actions| ==> (actions[i].Move? ==> PosKey in m && actions[i].pos == ToPoint(m[PosKey]))
    ensures SizeKey in m ==> Resize(ToSize(m[SizeKey])) in actions
    ensures PosKey in m ==> Move(ToPoint(m[PosKey])) in actions
    ensures ShowMaximized in actions <==> ToBool(ValueOr(m, MaximizedKey, BoolValue(false)))
  {
    SizeStep(m) + PosStep(m) + MaximizeStep(m)
  }

  /** The resize of a restore: the saved size, if any. */
  function SizeStep(m: StateMap): seq<WindowAction>
  {
    if SizeKey in m then [Resize(ToSize(m[SizeKey]))] else []
  }

  /** The move of a restore: the saved position, if any. */
  function PosStep(m: StateMap): seq<WindowAction>
  {
    if PosKey in m then [Move(ToPoint(m[PosKey]))] else []
  }

  /** The maximize of a restore: only if the saved flag, false when absent, is true. */
  function MaximizeStep(m: StateMap): seq<WindowAction>
  {
    if ToBool(ValueOr(m, MaximizedKey, BoolValue(false))) then [ShowMaximized] else []
  }

  /** The part of a window's state that the saved map describes. */
  datatype Geometry = Geometry(pos: Point, size: Size, maximized: bool)

  /** The geometry after one window action. */
  function Apply(g: Geometry, a: WindowAction): Geometry
  {
    match a
    case Resize(size) => g.(size := size)
    case Move(pos) => g.(pos := pos)
    case ShowMaximized => g.(maximized := true)
  }

  /** The geometry after a sequence of window actions, in order. */
  function ApplyAll(g: Geometry, actions: seq<WindowAction>): Geometry
    decreases |actions|
  {
    if actions == [] then g else ApplyAll(Apply(g, actions[0]), actions[1..])
  }

  /**
   * A size enlarged, dimension by dimension, to at least a minimum: what
   * setMinimumSize does to a widget smaller than the new minimum.
   */
  function AtLeast(size: Size, minimum: Size): (r: Size)
    ensures r.width >= minimum.width && r.height >= minimum.height
    ensures r.width >= size.width && r.height >= size.height
    ensures (r.width == size.width || r.width == minimum.width) && (r.height == size.height || r.height == minimum.height)
    ensures size.width >= minimum.width && size.height >= minimum.height ==> r == size
  {
    Size(if size.width < minimum.width then minimum.width else size.width,
         if size.height < minimum.height then minimum.height else size.height)
  }

  /** The geometry of a window after restoring a saved map into it. */
  function Restored(g: Geometry, m: StateMap): Geometry
  {
    ApplyAll(g, RestoreActions(m))
  }

  /** Restoring a backed-up map resizes to the saved size, then moves to the saved position, then maximizes iff it was maximized. */
  lemma RestoreAfterBackup(pos: Point, size: Size, isMaximized: bool)
    ensures RestoreActions(BackupWindowState(pos, size, isMaximized))
         == [Resize(size), Move(pos)] + (if isMaximized then [ShowMaximized] else [])
  {
  }

  /** A key absent from the map applies nothing; an absent flag counts as false. */
  lemma RestoreAbsentKeys(m: StateMap)
    ensures SizeKey !in m ==> forall i :: 0 <= i < |RestoreActions(m)| ==> !RestoreActions(m)[i].Resize?
    ensures PosKey !in m ==> forall i :: 0 <= i < |RestoreActions(m)| ==> !RestoreActions(m)[i].Move?
    ensures MaximizedKey !in m ==> forall i :: 0 <= i < |RestoreActions(m)| ==> !RestoreActions(m)[i].ShowMaximized?
    ensures m == map[] ==> RestoreActions(m) == []
  {
  }

  /** An empty or unreadable saved state leaves the window's default placement untouched. */
  lemma RestoreEmptyKeepsGeometry(g: Geometry)
    ensures Restored(g, map[]) == g
  {
    assert RestoreActions(map[]) == [];
  }

  /** A restore is its size step, then its position step, then its maximize step. */
  lemma RestoredBySteps(g: Geometry, m: StateMap)
    ensures RestoreActions(m) == SizeStep(m) + PosStep(m) + MaximizeStep(m)
    ensures Restored(g, m) == ApplyAll(ApplyAll(ApplyAll(g, SizeStep(m)), PosStep(m)), MaximizeStep(m))
  {
    ApplyAllAppend(g, SizeStep(m), PosStep(m));
    ApplyAllAppend(g, SizeStep(m) + PosStep(m), MaximizeStep(m));
  }

  /** Applying no action or a single one. */
  lemma ApplyAllAtMostOne(g: Geometry, actions: seq<WindowAction>)
    requires |actions| <= 1
    ensures ApplyAll(g, actions) == if actions == [] then g else Apply(g, actions[0])
  {
  }

  /** Applying actions one sequence after another is applying their concatenation. */
  lemma {:induction false} ApplyAllAppend(g: Geometry, a: seq<WindowAction>, b: seq<WindowAction>)
    ensures ApplyAll(g, a + b) == ApplyAll(ApplyAll(g, a), b)
    decreases |a|
  {
    if a == [] {
      assert a + b == b;
    } else {
      assert (a + b)[0] == a[0];
      assert (a + b)[1..] == a[1..] + b;
      ApplyAllAppend(Apply(g, a[0]), a[1..], b);
    }
  }

  /**
   * Round trip: restoring into a window that is not maximized the map backed up
   * from a window gives back that window's position, size and maximized flag.
   */
  lemma BackupRestoreRoundTrip(g: Geometry, pos: Point, size: Size, isMaximized: bool)
    requires !g.maximized
    ensures Restored(g, BackupWindowState(pos, size, isMaximized)) == Geometry(pos, size, isMaximized)
  {
    RestoreAfterBackup(pos, size, isMaximized);
    var tail := if isMaximized then [ShowMaximized] else [];
    ApplyAllAppend(g, [Resize(size), Move(pos)], tail);
    assert [Resize(size), Move(pos)][1..] == [Move(pos)];
    assert ApplyAll(g, [Resize(size), Move(pos)]) == ApplyAll(g.(size := size), [Move(pos)]);
    assert ApplyAll(g.(size := size), [Move(pos)]) == ApplyAll(g.(size := size, pos := pos), []);
  }

  /** The minimum window size on a screen whose available geometry has a wide width. */
  const WideMinimumSize: Size := Size(1208, 778)

  /** The minimum window size on any other screen. */
  const NarrowMinimumSize: Size := Size(960, 716)

  /** showWindow's rule: wider than 1366 available pixels gives the larger minimum size. */
  function MinimumSize(availableWidth: int): (r: Size)
    ensures r == WideMinimumSize || r == NarrowMinimumSize
    ensures r == WideMinimumSize <==> availableWidth > 1366
  {
    if availableWidth > 1366 then WideMinimumSize else NarrowMinimumSize
  }

  /** A wider screen never gets a smaller minimum size, and the wide minimum fits the width that selects it. */
  lemma MinimumSizeMonotone(narrower: int, wider: int)
    requires narrower <= wider
    ensures MinimumSize(narrower).width <= MinimumSize(wider).width
    ensures MinimumSize(narrower).height <= MinimumSize(wider).height
    ensures wider > 1366 ==> MinimumSize(wider).width < wider
  {
  }
}
