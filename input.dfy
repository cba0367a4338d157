/**
 * Event-driven input handling of the game's main file: every polled event
 * updates three process-wide flags (`done`, `movingLeft`, `movingRight`).
 * The event source is a finite sequence of abstract events; draining it is a
 * left fold of the per-event transition `Apply`.
 */
module Input {

  /** The keys the handler distinguishes; every other key is `OtherKey`. */
  datatype Key = KeyD | KeyA | Escape | OtherKey

  /** A polled event: window quit, key down (with the key-repeat flag), key up, or anything else. */
  datatype Event =
    | Quit
    | KeyDown(key: Key, repeat: bool)
    | KeyUp(key: Key, repeat: bool)
    | OtherEvent

  /** The three global flags the handler writes. */
  datatype Flags = Flags(done: bool, movingLeft: bool, movingRight: bool)

  datatype Direction = Left | Right

  /** The movement intent flag for one direction. */
  function Held(f: Flags, d: Direction): bool
  {
    match d
    case Left => f.movingLeft
    case Right => f.movingRight
  }

  /** Events after which the game must stop: a quit request, or a fresh press of Escape. */
  predicate SetsDone(e: Event)
  {
    e == Quit || e == KeyDown(Escape, false)
  }

  /**
   * Events that raise the intent flag of a direction. Escape raises the right
   * intent too: its case in the key-down switch has no `break`.
   */
  predicate Presses(e: Event, d: Direction)
  {
    e.KeyDown? && !e.repeat &&
    match d
    case Left => e.key == KeyA
    case Right => e.key == KeyD || e.key == Escape
  }

  /** Events that lower the intent flag of a direction; key-up ignores the repeat flag. */
  predicate Releases(e: Event, d: Direction)
  {
    e.KeyUp? &&
    match d
    case Left => e.key == KeyA
    case Right => e.key == KeyD
  }

  function Opposite(d: Direction): Direction
  {
    match d
    case Left => Right
    case Right => Left
  }

  predicate Touches(e: Event, d: Direction)
  {
    Presses(e, d) || Releases(e, d)
  }

  /**
   * One pass of the body of the polling loop: the outer switch on the event
   * type and the inner switches on the key, written case by case.
   */
  function Apply(f: Flags, e: Event): (r: Flags)
    ensures r.done == (f.done || SetsDone(e))
    ensures forall d ::
      Held(r, d) == if Presses(e, d) then true else if Releases(e, d) then false else Held(f, d)
  {
    match e
    case Quit => f.(done := true)
    case KeyDown(k, repeat) =>
      if repeat then f
      else (
        match k
        // no break after the Escape case: control falls into the D case
        case Escape => f.(done := true).(movingRight := true)
        case KeyD => f.(movingRight := true)
        case KeyA => f.(movingLeft := true)
        case OtherKey => f)
    case KeyUp(k, _) => (
      match k
      case KeyD => f.(movingRight := false)
      case KeyA => f.(movingLeft := false)
      case _ => f)
    case OtherEvent => f
  }

  /** Draining the event queue: apply every event, in the order polled. No event clears `done`. */
  function Fold(f: Flags, events: seq<Event>): (r: Flags)
    ensures f.done ==> r.done
    decreases |events|
  {
    if events == [] then f else Fold(Apply(f, events[0]), events[1..])
  }

  /** Draining two batches one after the other is draining their concatenation. */
  lemma {:induction false} FoldAppend(f: Flags, xs: seq<Event>, ys: seq<Event>)
    ensures Fold(f, xs + ys) == Fold(Fold(f, xs), ys)
    decreases |xs|
  {
    if xs == [] {
      assert xs + ys == ys;
    } else {
      assert (xs + ys)[0] == xs[0];
      assert (xs + ys)[1..] == xs[1..] + ys;
      FoldAppend(Apply(f, xs[0]), xs[1..], ys);
    }
  }

  /** One more event is one more application of the per-event transition. */
  lemma FoldSnoc(f: Flags, events: seq<Event>, e: Event)
    ensures Fold(f, events + [e]) == Apply(Fold(f, events), e)
  {
    FoldAppend(f, events, [e]);
    assert [e][1..] == [];
  }

  /** A quit event raises `done` and leaves both movement flags alone. */
  lemma QuitOnlySetsDone(f: Flags)
    ensures Apply(f, Quit) == f.(done := true)
  {
  }

  /** A key-down marked as a repeat changes none of the three flags, whatever the key. */
  lemma RepeatedKeyDownIgnored(f: Flags, k: Key)
    ensures Apply(f, KeyDown(k, true)) == f
  {
  }

  /** Fresh presses: D raises the right intent, A the left one, other keys change nothing. */
  lemma KeyDownRules(f: Flags)
    ensures Apply(f, KeyDown(KeyD, false)) == f.(movingRight := true)
    ensures Apply(f, KeyDown(KeyA, false)) == f.(movingLeft := true)
    ensures Apply(f, KeyDown(OtherKey, false)) == f
  {
  }

  /** A fresh press of Escape sets `done` and, through the fall-through, also `movingRight`. */
  lemma EscapeFallsThrough(f: Flags)
    ensures Apply(f, KeyDown(Escape, false)) == f.(done := true, movingRight := true)
  {
  }

  /** Releases: D lowers the right intent, A the left one, whatever the repeat flag; other keys change nothing. */
  lemma KeyUpRules(f: Flags, repeat: bool)
    ensures Apply(f, KeyUp(KeyD, repeat)) == f.(movingRight := false)
    ensures Apply(f, KeyUp(KeyA, repeat)) == f.(movingLeft := false)
    ensures Apply(f, KeyUp(Escape, repeat)) == f
    ensures Apply(f, KeyUp(OtherKey, repeat)) == f
  {
  }

  /** After draining a batch, `done` holds exactly when it held before or some event of the batch sets it. */
  lemma {:induction false} DoneAfterFold(f: Flags, events: seq<Event>)
    ensures Fold(f, events).done <==> f.done || exists i :: 0 <= i < |events| && SetsDone(events[i])
    decreases |events|
  {
    if events != [] {
      var rest := events[1..];
      DoneAfterFold(Apply(f, events[0]), rest);
      if exists i :: 0 <= i < |rest| && SetsDone(rest[i]) {
        var i :| 0 <= i < |rest| && SetsDone(rest[i]);
        assert SetsDone(events[i + 1]);
      }
      if exists i :: 0 <= i < |events| && SetsDone(events[i]) {
        var i :| 0 <= i < |events| && SetsDone(events[i]);
        if i > 0 {
          assert SetsDone(rest[i - 1]);
        }
      }
    }
  }

  /** `done` is monotone: once some prefix of the events has set it, every longer prefix keeps it set. */
  lemma DoneMonotone(f: Flags, events: seq<Event>, i: nat, j: nat)
    requires i <= j <= |events|
    ensures Fold(f, events[..i]).done ==> Fold(f, events[..j]).done
  {
    assert events[..j] == events[..i] + events[i..j];
    FoldAppend(f, events[..i], events[i..j]);
    DoneAfterFold(Fold(f, events[..i]), events[i..j]);
  }

  /** Events that do not touch a direction leave its intent flag as it was. */
  lemma {:induction false} UntouchedKeepsIntent(f: Flags, events: seq<Event>, d: Direction)
    requires forall i :: 0 <= i < |events| ==> !Touches(events[i], d)
    ensures Held(Fold(f, events), d) == Held(f, d)
    decreases |events|
  {
    if events != [] {
      assert !Touches(events[0], d);
      UntouchedKeepsIntent(Apply(f, events[0]), events[1..], d);
    }
  }

  /**
   * The order of events within a batch matters: the intent flag of a direction
   * after the batch is decided by the last event that touches it.
   */
  lemma LastTouchDecides(f: Flags, events: seq<Event>, d: Direction, i: nat)
    requires i < |events| && Touches(events[i], d)
    requires forall j :: i < j < |events| ==> !Touches(events[j], d)
    ensures Held(Fold(f, events), d) == Presses(events[i], d)
  {
    var before, after := events[..i], events[i + 1..];
    assert events == (before + [events[i]]) + after;
    FoldAppend(f, before + [events[i]], after);
    FoldSnoc(f, before, events[i]);
    var mid := Fold(f, before + [events[i]]);
    assert Held(mid, d) == Presses(events[i], d);
    forall j | 0 <= j < |after|
      ensures !Touches(after[j], d)
    {
      assert after[j] == events[i + 1 + j];
    }
    UntouchedKeepsIntent(mid, after, d);
  }
}
