/**
 * The per-report translation step of the mouse driver loop.
 *
 * Each decoded snapshot is compared with the one retained from the
 * previous report. The comparison yields an ordered list of input
 * commands (pointer motion, mouse buttons, keys), and the new snapshot
 * then replaces the retained one. Commands are values here; injecting
 * them into the host is left to whoever consumes the list.
 */
module Translator {
  import opened Optional
  import opened Controller

  datatype Button = Left | Right

  datatype Key = Command | VolumeUp | VolumeDown

  /** One synthesized host input event, in place of a call into the input library. */
  datatype InputCommand =
    | MoveRelative(dx: int, dy: int)
    | ButtonPress(button: Button)
    | ButtonRelease(button: Button)
    | KeyPress(key: Key)
    | KeyRelease(key: Key)

  /** How a boolean flag changed between the previous and the current snapshot. */
  datatype Transition = RisingEdge | FallingEdge | SteadyHigh | SteadyLow

  /** Factor applied to a touchpad delta before it becomes pointer motion. */
  const MouseScale: int := 2

  const I32Min: int := -0x8000_0000
  const I32Max: int := 0x7FFF_FFFF

  /** The edge between two consecutive levels; both levels can be read back from it. */
  function Classify(state: bool, prevState: bool): (t: Transition)
    ensures (t == RisingEdge || t == SteadyHigh) <==> state
    ensures (t == SteadyHigh || t == FallingEdge) <==> prevState
  {
    if state && !prevState then RisingEdge
    else if !state && prevState then FallingEdge
    else if state then SteadyHigh
    else SteadyLow
  }

  /**
   * A touchpad delta scaled and converted to a 32-bit integer. The source
   * multiplies as a double and casts back, which saturates at the `i32`
   * bounds; for an integer delta the product is exact, so only the
   * saturation is left to model.
   */
  function ScaleDelta(delta: int): (r: int)
    ensures I32Min <= r <= I32Max
    ensures I32Min <= MouseScale * delta <= I32Max ==> r == MouseScale * delta
    ensures delta <= 0 <==> r <= 0
    ensures delta < 0 <==> r < 0
    ensures MouseScale * delta < I32Min ==> r == I32Min
    ensures MouseScale * delta > I32Max ==> r == I32Max
  {
    var scaled := MouseScale * delta;
    if scaled < I32Min then I32Min
    else if scaled > I32Max then I32Max
    else scaled
  }

  /** The flag that drives each mouse button: touchpad click is Left, App is Right. */
  function ButtonFlag(s: Snapshot, b: Button): bool {
    match b
    case Left => s.touchClick
    case Right => s.app
  }

  /** The flag that drives each key: Home is Command, then the two volume buttons. */
  function KeyFlag(s: Snapshot, k: Key): bool {
    match k
    case Command => s.home
    case VolumeUp => s.volUp
    case VolumeDown => s.volDown
  }

  /** Pointer motion: emitted only when contact is reported in both snapshots. */
  function Motion(prev: Snapshot, cur: Snapshot): (r: Option<InputCommand>)
    ensures r.Some? <==> cur.touchDown && prev.touchDown
    ensures r.Some? ==>
      && r.value.MoveRelative?
      && r.value.dx == MouseScale * (cur.touchpadX as int - prev.touchpadX as int)
      && r.value.dy == MouseScale * (cur.touchpadY as int - prev.touchpadY as int)
      && -510 <= r.value.dx <= 510 && -510 <= r.value.dy <= 510
  {
    if cur.touchDown && prev.touchDown then
      var dx := cur.touchpadX as int - prev.touchpadX as int;
      var dy := cur.touchpadY as int - prev.touchpadY as int;
      assert -255 <= dx <= 255 && -255 <= dy <= 255;
      assert ScaleDelta(dx) == MouseScale * dx && ScaleDelta(dy) == MouseScale * dy;
      Some(MoveRelative(ScaleDelta(dx), ScaleDelta(dy)))
    else None
  }

  /** A mouse button follows its flag: press on a rising edge, release on a falling one. */
  function ButtonEdge(state: bool, prevState: bool, b: Button): (r: Option<InputCommand>)
    ensures r == Some(ButtonPress(b)) <==> state && !prevState
    ensures r == Some(ButtonRelease(b)) <==> !state && prevState
    ensures r == None <==> state == prevState
  {
    match Classify(state, prevState)
    case RisingEdge => Some(ButtonPress(b))
    case FallingEdge => Some(ButtonRelease(b))
    case _ => None
  }

  /**
   * The key helper: at most one command, a press on a rising edge and a
   * release on the next report in which the button is still held. A
   * falling edge emits nothing, so a key held for one report only is never
   * released, and a key held longer is released once per further report.
   */
  function KeyEdge(state: bool, prevState: bool, k: Key): (r: Option<InputCommand>)
    ensures r == Some(KeyPress(k)) <==> state && !prevState
    ensures r == Some(KeyRelease(k)) <==> state && prevState
    ensures r == None <==> !state
  {
    match Classify(state, prevState)
    case RisingEdge => Some(KeyPress(k))
    case SteadyHigh => Some(KeyRelease(k))
    case _ => None
  }

  /** Number of command sources examined per report. */
  const SlotCount: nat := 6

  /** Position of a command's source in the fixed emission order of one step. */
  function Rank(c: InputCommand): (k: nat)
    ensures k < SlotCount
  {
    match c
    case MoveRelative(_, _) => 0
    case ButtonPress(b) => ButtonRank(b)
    case ButtonRelease(b) => ButtonRank(b)
    case KeyPress(k) => KeyRank(k)
    case KeyRelease(k) => KeyRank(k)
  }

  function ButtonRank(b: Button): nat {
    match b
    case Left => 1
    case Right => 2
  }

  function KeyRank(k: Key): nat {
    match k
    case Command => 3
    case VolumeUp => 4
    case VolumeDown => 5
  }

  /**
   * What source `k` of the emission order contributes to one step:
   * motion, then Left, Right, Command, VolumeUp and VolumeDown.
   */
  function Slot(prev: Snapshot, cur: Snapshot, k: nat): (r: Option<InputCommand>)
    requires k < SlotCount
    ensures r.Some? ==> Rank(r.value) == k
  {
    match k
    case 0 => Motion(prev, cur)
    case 1 => ButtonEdge(cur.touchClick, prev.touchClick, Left)
    case 2 => ButtonEdge(cur.app, prev.app, Right)
    case 3 => KeyEdge(cur.home, prev.home, Command)
    case 4 => KeyEdge(cur.volUp, prev.volUp, VolumeUp)
    case _ => KeyEdge(cur.volDown, prev.volDown, VolumeDown)
  }

  /** The commands are in strictly increasing rank, hence in emission order and at most one per source. */
  predicate InEmissionOrder(cmds: seq<InputCommand>) {
    forall i, j :: 0 <= i < j < |cmds| ==> Rank(cmds[i]) < Rank(cmds[j])
  }

  /**
   * Reference description of one step: the commands the comparison of
   * `prev` with `cur` calls for, stated per command.
   */
  predicate Expected(prev: Snapshot, cur: Snapshot, c: InputCommand) {
    match c
    case MoveRelative(dx, dy) =>
      && cur.touchDown && prev.touchDown
      && dx == MouseScale * (cur.touchpadX as int - prev.touchpadX as int)
      && dy == MouseScale * (cur.touchpadY as int - prev.touchpadY as int)
    case ButtonPress(b) => ButtonFlag(cur, b) && !ButtonFlag(prev, b)
    case ButtonRelease(b) => !ButtonFlag(cur, b) && ButtonFlag(prev, b)
    case KeyPress(k) => KeyFlag(cur, k) && !KeyFlag(prev, k)
    case KeyRelease(k) => KeyFlag(cur, k) && KeyFlag(prev, k)
  }

  /** A command is called for exactly when the source of its rank produces it. */
  lemma ExpectedIsSlot(prev: Snapshot, cur: Snapshot, c: InputCommand)
    ensures Expected(prev, cur, c) <==> Slot(prev, cur, Rank(c)) == Some(c)
  {
  }

  /** The commands of sources `k` and later, in emission order. */
  function Collect(prev: Snapshot, cur: Snapshot, k: nat): (r: seq<InputCommand>)
    requires k <= SlotCount
    ensures |r| <= SlotCount - k
    ensures InEmissionOrder(r)
    ensures forall c :: c in r <==> k <= Rank(c) && Slot(prev, cur, Rank(c)) == Some(c)
    decreases SlotCount - k
  {
    if k == SlotCount then []
    else
      var rest := Collect(prev, cur, k + 1);
      match Slot(prev, cur, k)
      case None => rest
      case Some(c) =>
        ConsInEmissionOrder(c, rest);
        [c] + rest
  }

  /** A command ranked below everything in an ordered list may go in front of it. */
  lemma ConsInEmissionOrder(c: InputCommand, rest: seq<InputCommand>)
    requires InEmissionOrder(rest)
    requires forall d :: d in rest ==> Rank(c) < Rank(d)
    ensures InEmissionOrder([c] + rest)
  {
  }

  /** All commands for one decoded snapshot, compared with the retained one. */
  function Translate(prev: Snapshot, cur: Snapshot): (cmds: seq<InputCommand>)
    ensures |cmds| <= SlotCount
    ensures InEmissionOrder(cmds)
    ensures forall c :: c in cmds <==> Expected(prev, cur, c)
  {
    forall c
      ensures Expected(prev, cur, c) <==> Slot(prev, cur, Rank(c)) == Some(c)
    {
      ExpectedIsSlot(prev, cur, c);
    }
    Collect(prev, cur, 0)
  }

  /** Pointer motion in one step is at most 510 counts along each axis. */
  lemma MotionBounded(prev: Snapshot, cur: Snapshot)
    ensures forall c :: c in Translate(prev, cur) && c.MoveRelative? ==>
      -510 <= c.dx <= 510 && -510 <= c.dy <= 510
  {
  }

  /**
   * Motion needs contact in two consecutive snapshots; it then comes first
   * and is twice the change of each coordinate.
   */
  lemma MotionNeedsTwoTouches(prev: Snapshot, cur: Snapshot)
    ensures (exists c :: c in Translate(prev, cur) && c.MoveRelative?) <==> cur.touchDown && prev.touchDown
    ensures cur.touchDown && prev.touchDown ==>
      Translate(prev, cur)[0] == MoveRelative(
        MouseScale * (cur.touchpadX as int - prev.touchpadX as int),
        MouseScale * (cur.touchpadY as int - prev.touchpadY as int))
  {
  }

  /** What one report yields: the commands to inject and the snapshot to retain. */
  datatype StepResult = StepResult(cmds: seq<InputCommand>, state: Snapshot)

  /**
   * One iteration of the driver loop. A report that does not decode is
   * dropped: no commands, and the retained snapshot stays as it was.
   */
  function Step(prev: Snapshot, packet: seq<bv8>): (r: StepResult)
    ensures r.state == Decode(packet).GetOr(prev)
    ensures |packet| != ReportLength ==> r.cmds == []
    ensures |r.cmds| <= SlotCount && InEmissionOrder(r.cmds)
    ensures forall c :: c in r.cmds <==> |packet| == ReportLength && Expected(prev, r.state, c)
  {
    match Decode(packet)
    case None => StepResult([], prev)
    case Some(cur) =>
      StepResult(Translate(prev, cur), cur)
  }

  /** A snapshot with contact at (x, y) and no button held. */
  function Touch(x: bv8, y: bv8): Snapshot {
    Snapshot(x, y, false, false, false, false, false, true)
  }

  /** Moving from (100, 100) to (110, 90) under contact moves the pointer by (20, -20) and does nothing else. */
  lemma MotionExample()
    ensures Translate(Touch(100, 100), Touch(110, 90)) == [MoveRelative(20, -20)]
  {
  }

  /** The first contact after none moves nothing, whatever the coordinates. */
  lemma FirstTouchDoesNotMove(prev: Snapshot, cur: Snapshot)
    requires !prev.touchDown
    ensures forall c :: c in Translate(prev, cur) ==> !c.MoveRelative?
  {
  }

  /** Holding a button's flag, or leaving it clear, emits nothing for that button. */
  lemma SteadyButtonIsSilent(prev: Snapshot, cur: Snapshot, b: Button)
    requires ButtonFlag(prev, b) == ButtonFlag(cur, b)
    ensures ButtonPress(b) !in Translate(prev, cur) && ButtonRelease(b) !in Translate(prev, cur)
  {
  }

  /**
   * The key helper as written: while a button stays held every report
   * releases its key again, and letting go emits nothing at all.
   */
  lemma HeldKeyIsReleasedEachReport(prev: Snapshot, cur: Snapshot, k: Key)
    ensures KeyFlag(prev, k) && KeyFlag(cur, k) ==>
      KeyRelease(k) in Translate(prev, cur) && KeyPress(k) !in Translate(prev, cur)
    ensures !KeyFlag(cur, k) ==>
      KeyRelease(k) !in Translate(prev, cur) && KeyPress(k) !in Translate(prev, cur)
  {
  }

  /** A snapshot with no contact whose only possibly set flag is the touchpad click. */
  function Click(pressed: bool): Snapshot {
    Snapshot(0, 0, false, false, false, false, pressed, false)
  }

  /** Click held over reports false, true, true, false: one press, nothing, one release. */
  lemma ClickSequenceExample()
    ensures Translate(Click(false), Click(true)) == [ButtonPress(Left)]
    ensures Translate(Click(true), Click(true)) == []
    ensures Translate(Click(true), Click(false)) == [ButtonRelease(Left)]
  {
  }
}
