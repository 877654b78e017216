/**
 * The notification loop as a fold of a step function over the stream of
 * reports, starting from the all-clear snapshot, and what it guarantees
 * across many reports.
 *
 * The fold is stated for any step function, so the facts about the stream
 * depend only on the few properties of `Step` they name; `Listen` is the
 * fold of `Step` itself.
 */
module Driver {
  import opened Optional
  import opened Controller
  import opened Translator

  /** One iteration of the loop body, taken as a value. */
  type StepFunction = (Snapshot, seq<bv8>) -> StepResult

  /** Feeds `packets` through `step` in order, concatenating the commands of each report. */
  function Fold(step: StepFunction, state: Snapshot, packets: seq<seq<bv8>>): (r: StepResult)
    ensures packets == [] ==> r == StepResult([], state)
    ensures packets != [] ==> step(state, packets[0]).cmds <= r.cmds
    decreases |packets|
  {
    if packets == [] then StepResult([], state)
    else
      var first := step(state, packets[0]);
      var rest := Fold(step, first.state, packets[1..]);
      StepResult(first.cmds + rest.cmds, rest.state)
  }

  /** The whole loop: every report of the stream, from the derived `Default` snapshot. */
  function Listen(packets: seq<seq<bv8>>): (r: StepResult)
    ensures packets == [] ==> r == StepResult([], Initial)
  {
    Fold(Step, Initial, packets)
  }

  /** The reports of `packets` that the decoder accepts, in their original order. */
  function Decodable(packets: seq<seq<bv8>>): (r: seq<seq<bv8>>)
    ensures |r| <= |packets|
    ensures forall p :: p in r <==> p in packets && |p| == ReportLength
  {
    if packets == [] then []
    else if |packets[0]| == ReportLength then [packets[0]] + Decodable(packets[1..])
    else Decodable(packets[1..])
  }

  /**
   * `Decodable` filters a concatenation part by part. With `DecodableSingle`
   * this makes it the order-preserving filter: it fixes the order and the
   * number of copies of every kept report.
   */
  lemma {:induction false} DecodableAppend(a: seq<seq<bv8>>, b: seq<seq<bv8>>)
    ensures Decodable(a + b) == Decodable(a) + Decodable(b)
    decreases |a|
  {
    if a == [] {
      assert a + b == b;
    } else {
      assert (a + b)[0] == a[0];
      assert (a + b)[1..] == a[1..] + b;
      DecodableAppend(a[1..], b);
    }
  }

  /** A single report is kept exactly when it has the length the decoder accepts. */
  lemma DecodableSingle(p: seq<bv8>)
    ensures Decodable([p]) == if |p| == ReportLength then [p] else []
  {
    assert [p][1..] == [];
  }

  /** The snapshot decoded from the last acceptable report, or `state` if there is none. */
  function LastDecoded(state: Snapshot, packets: seq<seq<bv8>>): Snapshot
    decreases |packets|
  {
    if packets == [] then state
    else
      match Decode(packets[|packets| - 1])
      case Some(s) => s
      case None => LastDecoded(state, packets[..|packets| - 1])
  }

  /** A step that drops a report of the wrong length: no commands, state untouched. */
  ghost predicate DropsMalformed(step: StepFunction) {
    forall s, p :: |p| != ReportLength ==> step(s, p) == StepResult([], s)
  }

  /** A step that retains the snapshot decoded from the report, if any. */
  ghost predicate RetainsDecoded(step: StepFunction) {
    forall s, p :: step(s, p).state == Decode(p).GetOr(s)
  }

  /** A step that emits at most one command per source. */
  ghost predicate EmitsAtMostSix(step: StepFunction) {
    forall s, p :: |step(s, p).cmds| <= SlotCount
  }

  /** Running two stretches of the stream one after the other is running their concatenation. */
  lemma {:induction false} FoldAppend(step: StepFunction, state: Snapshot, a: seq<seq<bv8>>, b: seq<seq<bv8>>)
    ensures Fold(step, state, a + b).cmds == Fold(step, state, a).cmds + Fold(step, Fold(step, state, a).state, b).cmds
    ensures Fold(step, state, a + b).state == Fold(step, Fold(step, state, a).state, b).state
    decreases |a|
  {
    if a == [] {
      assert a + b == b;
    } else {
      assert (a + b)[0] == a[0];
      assert (a + b)[1..] == a[1..] + b;
      FoldAppend(step, step(state, a[0]).state, a[1..], b);
    }
  }

  /** The stream yields at most six commands per report. */
  lemma {:induction false} FoldLength(step: StepFunction, state: Snapshot, packets: seq<seq<bv8>>)
    requires EmitsAtMostSix(step)
    ensures |Fold(step, state, packets).cmds| <= SlotCount * |packets|
    decreases |packets|
  {
    if packets != [] {
      FoldLength(step, step(state, packets[0]).state, packets[1..]);
    }
  }

  /**
   * A report of the wrong length changes nothing: the loop behaves as if
   * every malformed report had been removed from the stream.
   */
  lemma {:induction false} FoldIgnoresMalformed(step: StepFunction, state: Snapshot, packets: seq<seq<bv8>>)
    requires DropsMalformed(step)
    ensures Fold(step, state, packets) == Fold(step, state, Decodable(packets))
    decreases |packets|
  {
    if packets != [] {
      FoldIgnoresMalformed(step, step(state, packets[0]).state, packets[1..]);
      if |packets[0]| == ReportLength {
        var d := [packets[0]] + Decodable(packets[1..]);
        assert d[0] == packets[0];
        assert d[1..] == Decodable(packets[1..]);
      }
    }
  }

  /** After the loop the retained snapshot is the one decoded from the last acceptable report. */
  lemma {:induction false} FoldFinalState(step: StepFunction, state: Snapshot, packets: seq<seq<bv8>>)
    requires RetainsDecoded(step)
    ensures Fold(step, state, packets).state == LastDecoded(state, packets)
    decreases |packets|
  {
    if packets != [] {
      var n := |packets|;
      var init, last := packets[..n - 1], packets[n - 1];
      assert packets == init + [last];
      FoldAppend(step, state, init, [last]);
      FoldFinalState(step, state, init);
      assert [last][1..] == [];
    }
  }

  /** Occurrences of `c` in `cmds`. */
  function Count(cmds: seq<InputCommand>, c: InputCommand): nat {
    if cmds == [] then 0
    else (if cmds[0] == c then 1 else 0) + Count(cmds[1..], c)
  }

  lemma {:induction false} CountAppend(a: seq<InputCommand>, b: seq<InputCommand>, c: InputCommand)
    ensures Count(a + b, c) == Count(a, c) + Count(b, c)
    decreases |a|
  {
    if a == [] {
      assert a + b == b;
    } else {
      assert (a + b)[0] == a[0];
      assert (a + b)[1..] == a[1..] + b;
      CountAppend(a[1..], b, c);
    }
  }

  /** In emission order no command repeats, so each occurs once or not at all. */
  lemma {:induction false} CountInEmissionOrder(cmds: seq<InputCommand>, c: InputCommand)
    requires InEmissionOrder(cmds)
    ensures Count(cmds, c) == if c in cmds then 1 else 0
    decreases |cmds|
  {
    if cmds != [] {
      var tail := cmds[1..];
      assert InEmissionOrder(tail) by {
        forall i, j | 0 <= i < j < |tail|
          ensures Rank(tail[i]) < Rank(tail[j])
        {
          assert tail[i] == cmds[i + 1] && tail[j] == cmds[j + 1];
        }
      }
      CountInEmissionOrder(tail, c);
      if cmds[0] == c {
        forall j | 0 <= j < |tail|
          ensures tail[j] != c
        {
          assert Rank(cmds[0]) < Rank(cmds[j + 1]);
        }
      }
    }
  }

  /** 1 while the flag driving button `b` is set. */
  function Level(s: Snapshot, b: Button): int {
    if ButtonFlag(s, b) then 1 else 0
  }

  /** Presses minus releases of `b` in `cmds`. */
  function Balance(cmds: seq<InputCommand>, b: Button): int {
    Count(cmds, ButtonPress(b)) - Count(cmds, ButtonRelease(b))
  }

  /** A step that moves the press balance of `b` by exactly the change of its flag. */
  ghost predicate TracksButton(step: StepFunction, b: Button) {
    forall s, p :: Balance(step(s, p).cmds, b) == Level(step(s, p).state, b) - Level(s, b)
  }

  /** Over a whole stream, presses minus releases of a button equal the change of its flag. */
  lemma {:induction false} FoldButtonBalance(step: StepFunction, state: Snapshot, packets: seq<seq<bv8>>, b: Button)
    requires TracksButton(step, b)
    ensures Balance(Fold(step, state, packets).cmds, b) == Level(Fold(step, state, packets).state, b) - Level(state, b)
    decreases |packets|
  {
    if packets != [] {
      var first := step(state, packets[0]);
      var rest := Fold(step, first.state, packets[1..]);
      FoldButtonBalance(step, first.state, packets[1..], b);
      CountAppend(first.cmds, rest.cmds, ButtonPress(b));
      CountAppend(first.cmds, rest.cmds, ButtonRelease(b));
    }
  }

  /** One report moves the press balance of a button by exactly the change of its flag. */
  lemma StepTracksButtons(b: Button)
    ensures TracksButton(Step, b)
  {
    forall s, p
      ensures Balance(Step(s, p).cmds, b) == Level(Step(s, p).state, b) - Level(s, b)
    {
      var r := Step(s, p);
      CountInEmissionOrder(r.cmds, ButtonPress(b));
      CountInEmissionOrder(r.cmds, ButtonRelease(b));
    }
  }

  /** The loop's own step has every property the stream lemmas ask for. */
  lemma StepIsWellBehaved()
    ensures DropsMalformed(Step) && RetainsDecoded(Step) && EmitsAtMostSix(Step)
  {
  }

  /** The loop emits at most six commands per report it receives. */
  lemma ListenLength(packets: seq<seq<bv8>>)
    ensures |Listen(packets).cmds| <= SlotCount * |packets|
  {
    StepIsWellBehaved();
    FoldLength(Step, Initial, packets);
  }

  /** Malformed reports can be removed from the stream without changing anything the loop does. */
  lemma ListenIgnoresMalformed(packets: seq<seq<bv8>>)
    ensures Listen(packets) == Listen(Decodable(packets))
  {
    StepIsWellBehaved();
    FoldIgnoresMalformed(Step, Initial, packets);
  }

  /** The retained snapshot after the loop is decoded from its last acceptable report. */
  lemma ListenFinalState(packets: seq<seq<bv8>>)
    ensures Listen(packets).state == LastDecoded(Initial, packets)
  {
    StepIsWellBehaved();
    FoldFinalState(Step, Initial, packets);
  }

  /**
   * From the initial snapshot a mouse button is never released more often
   * than pressed, nor pressed twice without a release in between: after
   * any stream it is held exactly when its flag is set.
   */
  lemma ButtonsStayPaired(packets: seq<seq<bv8>>, b: Button)
    ensures Balance(Listen(packets).cmds, b) == Level(Listen(packets).state, b)
    ensures 0 <= Balance(Listen(packets).cmds, b) <= 1
  {
    StepTracksButtons(b);
    FoldButtonBalance(Step, Initial, packets, b);
  }
}
