/**
 * The game's state and main loop. The source keeps the flags in globals and
 * the player in a sprite handler; here they are the fields of one `Game`
 * object, updated in place by `HandleInput`, `UpdateSimulation` and `Run`.
 * Each method is proved against a pure function of the old state (`Fold`,
 * `Simulate`, `Loop`), and the lemmas below state what those functions promise.
 */
module GameLoop {
  import opened Input
  import opened Simulation
  import opened FrameLimiter

  /** What one pass of the main loop consumes: the events polled, and the measured length of the pass. */
  datatype Frame = Frame(events: seq<Event>, elapsedMs: int)

  /** The whole state the main loop changes. */
  datatype World = World(flags: Flags, sprite: Sprite)

  /** What running the loop over some frames yields: the final state, the passes made, and the delays requested. */
  datatype Outcome = Outcome(world: World, ticks: nat, waits: seq<int>)

  /**
   * One pass: drain the events, then one simulation step on the new flags
   * (rendering only draws). A pass sets `done` exactly when a polled event
   * asks to stop, and moves the player by at most the speed, and only when
   * exactly one intent flag is held once the events are drained.
   */
  function Tick(w: World, fr: Frame): (r: World)
    ensures r.flags.done <==> w.flags.done || exists i :: 0 <= i < |fr.events| && SetsDone(fr.events[i])
    ensures r.sprite.x - w.sprite.x in {-PlayerSpeed, 0, PlayerSpeed}
    ensures r.sprite.x != w.sprite.x <==> r.flags.movingLeft != r.flags.movingRight
    ensures |r.sprite.calls| == |w.sprite.calls| + 3 && r.sprite.calls[..|w.sprite.calls|] == w.sprite.calls
  {
    DoneAfterFold(w.flags, fr.events);
    var flags := Fold(w.flags, fr.events);
    World(flags, Simulate(flags, w.sprite))
  }

  /** Passes made one after another, without looking at `done`. */
  function TickAll(w: World, frames: seq<Frame>): (r: World)
    decreases |frames|
  {
    if frames == [] then w else TickAll(Tick(w, frames[0]), frames[1..])
  }

  /**
   * The main loop: a pass is made only while `done` is false (and, here, while
   * frames remain). It makes at most one pass per frame and requests one delay
   * per pass; if it stops before the frames run out, `done` is set; if `done`
   * is already set, nothing happens.
   */
  function Loop(w: World, frames: seq<Frame>): (r: Outcome)
    ensures r.ticks <= |frames| && |r.waits| == r.ticks
    ensures r.ticks < |frames| ==> r.world.flags.done
    ensures w.flags.done ==> r.ticks == 0 && r.world == w
    decreases |frames|
  {
    if frames == [] || w.flags.done then Outcome(w, 0, [])
    else
      var rest := Loop(Tick(w, frames[0]), frames[1..]);
      Outcome(rest.world, rest.ticks + 1, [FrameWait(frames[0].elapsedMs)] + rest.waits)
  }

  /** One pass of the loop, when `done` is false and a frame remains. */
  lemma LoopStep(w: World, frames: seq<Frame>)
    requires frames != [] && !w.flags.done
    ensures Loop(w, frames) ==
      var rest := Loop(Tick(w, frames[0]), frames[1..]);
      Outcome(rest.world, rest.ticks + 1, [FrameWait(frames[0].elapsedMs)] + rest.waits)
  {
  }

  class Game {
    var done: bool
    var movingLeft: bool
    var movingRight: bool
    var x: int
    var calls: seq<SpriteCall>

    function Intent(): Flags
      reads this
    {
      Flags(done, movingLeft, movingRight)
    }

    function Player(): Sprite
      reads this
    {
      Sprite(x, calls)
    }

    function State(): World
      reads this
    {
      World(Intent(), Player())
    }

    /** The globals start false; the player starts at the given position with no calls made. */
    constructor (startX: int)
      ensures Intent() == Flags(false, false, false)
      ensures Player() == Sprite(startX, [])
    {
      done, movingLeft, movingRight := false, false, false;
      x, calls := startX, [];
    }

    /** Drain the polled events in order; only the three flags change. */
    method HandleInput(events: seq<Event>)
      modifies this`done, this`movingLeft, this`movingRight
      ensures Intent() == Fold(old(Intent()), events)
      ensures Player() == old(Player())
    {
      var i := 0;
      while i < |events|
        invariant 0 <= i <= |events|
        invariant Intent() == Fold(old(Intent()), events[..i])
      {
        FoldSnoc(old(Intent()), events[..i], events[i]);
        assert events[..i + 1] == events[..i] + [events[i]];
        match events[i] {
          case Quit =>
            done := true;
          case KeyDown(k, repeat) =>
            if !repeat {
              if k == Escape {
                done := true;
                // no break: control falls into the D case
              }
              if k == Escape || k == KeyD {
                movingRight := true;
              } else if k == KeyA {
                movingLeft := true;
              }
            }
          case KeyUp(k, _) =>
            if k == KeyD {
              movingRight := false;
            } else if k == KeyA {
              movingLeft := false;
            }
          case OtherEvent =>
        }
        i := i + 1;
      }
      assert events[..i] == events;
    }

    /** One simulation step: three independent tests of the flags, exactly one of which passes. */
    method UpdateSimulation()
      modifies this`x, this`calls
      ensures Player() == Simulate(Intent(), old(Player()))
      ensures Intent() == old(Intent())
    {
      calls := calls + [Gravity];
      calls := calls + [WalkAnimation];
      if movingLeft && !movingRight {
        x := x - PlayerSpeed;
        calls := calls + [Move(-PlayerSpeed, 0)];
      }
      if movingRight && !movingLeft {
        x := x + PlayerSpeed;
        calls := calls + [Move(PlayerSpeed, 0)];
      }
      if (!movingRight && !movingLeft) || (movingLeft && movingRight) {
        calls := calls + [SetIdle];
      }
    }

    /** The main loop over the given frames; returns the passes made and the delay requested after each. */
    method Run(frames: seq<Frame>) returns (ticks: nat, waits: seq<int>)
      modifies this`done, this`movingLeft, this`movingRight, this`x, this`calls
      ensures Loop(old(State()), frames) == Outcome(State(), ticks, waits)
    {
      ticks, waits := 0, [];
      while !done && ticks < |frames|
        invariant ticks <= |frames|
        invariant Loop(old(State()), frames) ==
          var rest := Loop(State(), frames[ticks..]);
          Outcome(rest.world, ticks + rest.ticks, waits + rest.waits)
      {
        var before, beforeWaits := State(), waits;
        LoopStep(before, frames[ticks..]);
        assert frames[ticks..][1..] == frames[ticks + 1..];
        HandleInput(frames[ticks].events);
        UpdateSimulation();
        assert State() == World(Fold(before.flags, frames[ticks].events), Simulate(Intent(), before.sprite));
        var wait := FrameWait(frames[ticks].elapsedMs);
        waits := waits + [wait];
        ticks := ticks + 1;
        assert forall tail :: waits + tail == beforeWaits + ([wait] + tail);
      }
    }
  }

  /** The delay requested after each pass is the one computed from that pass's measured length. */
  lemma {:induction false} LoopWaits(w: World, frames: seq<Frame>)
    ensures forall k :: 0 <= k < Loop(w, frames).ticks ==>
      Loop(w, frames).waits[k] == FrameWait(frames[k].elapsedMs)
    decreases |frames|
  {
    if frames != [] && !w.flags.done {
      LoopWaits(Tick(w, frames[0]), frames[1..]);
    }
  }

  /**
   * The loop stops exactly after the first pass that leaves `done` set: its
   * final state is that of its passes made unconditionally, and before each
   * of those passes `done` was still false.
   */
  lemma {:induction false} LoopStopsAtFirstDone(w: World, frames: seq<Frame>)
    ensures Loop(w, frames).ticks <= |frames|
    ensures Loop(w, frames).world == TickAll(w, frames[..Loop(w, frames).ticks])
    ensures forall k :: 0 <= k < Loop(w, frames).ticks ==> !TickAll(w, frames[..k]).flags.done
    decreases |frames|
  {
    if frames == [] || w.flags.done {
      assert frames[..0] == [];
    } else {
      var next, rest := Tick(w, frames[0]), frames[1..];
      LoopStopsAtFirstDone(next, rest);
      var n := Loop(next, rest).ticks;
      assert frames[..n + 1][1..] == rest[..n];
      forall k | 0 <= k < n + 1
        ensures !TickAll(w, frames[..k]).flags.done
      {
        if k > 0 {
          assert frames[..k][1..] == rest[..k - 1];
        }
      }
    }
  }

  /** While no events arrive, holding a single direction moves the player by the speed, that way, on every pass. */
  lemma {:induction false} HeldIntentKeepsMoving(w: World, frames: seq<Frame>, d: Direction)
    requires !w.flags.done && Held(w.flags, d) && !Held(w.flags, Opposite(d))
    requires forall k :: 0 <= k < |frames| ==> frames[k].events == []
    ensures Loop(w, frames).ticks == |frames|
    ensures Loop(w, frames).world.flags == w.flags
    ensures Loop(w, frames).world.sprite.x == w.sprite.x + |frames| * Velocity(d)
    decreases |frames|
  {
    if frames != [] {
      assert frames[0].events == [];
      var next := Tick(w, frames[0]);
      assert next.flags == w.flags;
      assert next.sprite.x == w.sprite.x + Velocity(d) by {
        match d
        case Left =>
        case Right =>
      }
      HeldIntentKeepsMoving(next, frames[1..], d);
      assert (|frames| - 1) * Velocity(d) + Velocity(d) == |frames| * Velocity(d);
    }
  }

  /**
   * Because of the fall-through, quitting with Escape can still take one step
   * to the right: when the left intent is clear and no later event of the same
   * batch touches either direction, the pass that reads the Escape press
   * completes its simulation step with only the right intent held, and then
   * the loop ends.
   */
  lemma EscapeQuitsAfterStepRight(w: World, fr: Frame, rest: seq<Frame>, i: nat)
    requires !w.flags.done && !w.flags.movingLeft
    requires i < |fr.events| && fr.events[i] == KeyDown(Escape, false)
    requires forall j :: 0 <= j < |fr.events| ==> !Touches(fr.events[j], Left)
    requires forall j :: i < j < |fr.events| ==> !Touches(fr.events[j], Right)
    ensures Loop(w, [fr] + rest).ticks == 1
    ensures Loop(w, [fr] + rest).waits == [FrameWait(fr.elapsedMs)]
    ensures Loop(w, [fr] + rest).world.flags.done
    ensures Loop(w, [fr] + rest).world.sprite.x == w.sprite.x + PlayerSpeed
  {
    assert SetsDone(fr.events[i]);
    LastTouchDecides(w.flags, fr.events, Right, i);
    UntouchedKeepsIntent(w.flags, fr.events, Left);
    assert ([fr] + rest)[1..] == rest;
  }
}
