/**
 * The history engine: a linear log of actions and a cursor into it. Actions
 * before the cursor are applied, actions from the cursor on can be redone.
 * Adding an action discards that redo tail. The engine only records and
 * hands actions back; applying them is the caller's business.
 *
 * The two React state cells `actions` and `currentPosition` become the two
 * fields of `HistoryLog`; each setter call becomes an assignment, in the
 * order the source makes them.
 */
module HistoryContext {
  import opened Common

  /** A JSON-like value, as carried in an action's payload. */
  datatype Value =
    | Number(n: real)
    | Text(s: string)
    | Flag(b: bool)
    | Object(entries: map<string, Value>)
    | List(items: seq<Value>)

  /** A history record: a plain object with string keys. */
  datatype Action = Action(entries: map<string, Value>)

  datatype Direction = UndoDirection | RedoDirection

  /** What `goToHistoryPosition` hands back: which way to replay, and the actions in replay order. */
  datatype Batch = Batch(direction: Direction, actions: seq<Action>)

  // ---------------------------------------------------------------------------
  // Building a record
  // ---------------------------------------------------------------------------

  /**
   * `{ id, type, entity, ...details, timestamp }`: later keys win, so the
   * details may override the id, type and entity, but never the timestamp.
   */
  function MakeAction(kind: string, entity: string, details: map<string, Value>, now: int, stamp: string): (a: Action)
    ensures a.entries.Keys == {"id", "type", "entity", "timestamp"} + details.Keys
    ensures a.entries["timestamp"] == Text(stamp)
    ensures forall k :: k in details && k != "timestamp" ==> a.entries[k] == details[k]
    ensures "id" !in details ==> a.entries["id"] == Number(now as real)
    ensures "type" !in details ==> a.entries["type"] == Text(kind)
    ensures "entity" !in details ==> a.entries["entity"] == Text(entity)
  {
    Action(map["id" := Number(now as real), "type" := Text(kind), "entity" := Text(entity)]
           + details
           + map["timestamp" := Text(stamp)])
  }

  // ---------------------------------------------------------------------------
  // The 12-hour timestamp "h:mm AM"
  // ---------------------------------------------------------------------------

  /** `hours % 12 || 12`. */
  function Hour12(hours: nat): (h: nat)
    requires hours < 24
    ensures 1 <= h <= 12 && h % 12 == hours % 12
  {
    if hours % 12 == 0 then 12 else hours % 12
  }

  /** The label stored with each action, from the clock's hours (0-23) and minutes (0-59). */
  function Timestamp(hours: nat, minutes: nat): string
    requires hours < 24 && minutes < 60
  {
    NatToString(Hour12(hours)) + ":" + PadStart(NatToString(minutes), 2, '0') + " "
      + (if hours >= 12 then "PM" else "AM")
  }

  /** What a reader of a timestamp sees: the 12-hour hour, the minutes and the half of the day. */
  datatype ClockReading = ClockReading(hour12: nat, minutes: nat, pm: bool)

  /** Reads "h:mm AM" or "hh:mm PM" back; None for anything else. */
  function ParseTimestamp(s: string): Option<ClockReading> {
    if |s| < 7 then None
    else
      var n := |s|;
      var hourDigits, minuteDigits, suffix := s[..n - 6], s[n - 5..n - 3], s[n - 2..];
      if s[n - 6] == ':' && s[n - 3] == ' ' && AllDigits(hourDigits) && AllDigits(minuteDigits)
         && (suffix == "AM" || suffix == "PM")
      then Some(ClockReading(ParseDecimal(hourDigits), ParseDecimal(minuteDigits), suffix == "PM"))
      else None
  }

  /** The 24-hour clock hour a reading stands for. */
  function HoursOf(r: ClockReading): nat {
    (if r.hour12 == 12 then 0 else r.hour12) + (if r.pm then 12 else 0)
  }

  /** The minutes, always written with two digits. */
  lemma MinutesRoundTrip(minutes: nat)
    requires minutes < 60
    ensures var m := PadStart(NatToString(minutes), 2, '0');
      |m| == 2 && AllDigits(m) && ParseDecimal(m) == minutes
  {
    var d := NatToString(minutes);
    ParseNatToString(minutes);
    if minutes < 10 {
      assert PadStart(d, 2, '0') == "0" + d;
      ParseLeadingZero(d);
    }
  }

  /** Any "h:mm AM" or "h:mm PM" with a non-empty hour reads back as its parts. */
  lemma ParseClockText(h: string, m: string, suffix: string)
    requires |h| >= 1 && AllDigits(h) && |m| == 2 && AllDigits(m)
    requires suffix == "AM" || suffix == "PM"
    ensures ParseTimestamp(h + ":" + m + " " + suffix)
         == Some(ClockReading(ParseDecimal(h), ParseDecimal(m), suffix == "PM"))
  {
    var tail := ":" + m + " " + suffix;
    var s := h + tail;
    assert h + ":" + m + " " + suffix == s;
    assert |tail| == 6 && |s| == |h| + 6;
    assert s[..|h|] == h;
    assert s[|h|..] == tail;
    assert tail[1..3] == m && tail[4..] == suffix;
    assert s[|h| + 1..|h| + 3] == m;
    assert s[|h| + 4..] == suffix;
  }

  /**
   * The timestamp reads back as the 12-hour hour (1 to 12), the two-digit
   * minutes, and PM exactly when the hour is 12 or later.
   */
  lemma {:induction false} TimestampRoundTrip(hours: nat, minutes: nat)
    requires hours < 24 && minutes < 60
    ensures ParseTimestamp(Timestamp(hours, minutes)) == Some(ClockReading(Hour12(hours), minutes, hours >= 12))
  {
    var h := NatToString(Hour12(hours));
    var m := PadStart(NatToString(minutes), 2, '0');
    MinutesRoundTrip(minutes);
    ParseNatToString(Hour12(hours));
    ParseClockText(h, m, if hours >= 12 then "PM" else "AM");
  }

  /** Two different clock times never share a timestamp. */
  lemma TimestampInjective(h1: nat, m1: nat, h2: nat, m2: nat)
    requires h1 < 24 && m1 < 60 && h2 < 24 && m2 < 60
    requires Timestamp(h1, m1) == Timestamp(h2, m2)
    ensures h1 == h2 && m1 == m2
  {
    TimestampRoundTrip(h1, m1);
    TimestampRoundTrip(h2, m2);
    var r1, r2 := ClockReading(Hour12(h1), m1, h1 >= 12), ClockReading(Hour12(h2), m2, h2 >= 12);
    assert r1 == r2;
    HoursOfReading(h1, m1);
    HoursOfReading(h2, m2);
  }

  /** The 12-hour hour and the half of the day give back the 24-hour hour. */
  lemma HoursOfReading(hours: nat, minutes: nat)
    requires hours < 24
    ensures HoursOf(ClockReading(Hour12(hours), minutes, hours >= 12)) == hours
  {
  }

  // ---------------------------------------------------------------------------
  // Jumping to a position
  // ---------------------------------------------------------------------------

  /**
   * The batch `goToHistoryPosition(position)` returns from cursor `current`:
   * the actions between the two cursors, newest first when going back.
   */
  function HistoryJump(actions: seq<Action>, current: nat, position: int): Option<Batch>
    requires current <= |actions|
  {
    if 0 <= position <= |actions| then
      if position < current then Some(Batch(UndoDirection, Reverse(actions[position..current])))
      else if position > current then Some(Batch(RedoDirection, actions[current..position]))
      else None
    else None
  }

  /** A jump yields nothing exactly when the target is out of range or already current. */
  lemma HistoryJumpNoneIff(actions: seq<Action>, current: nat, position: int)
    requires current <= |actions|
    ensures HistoryJump(actions, current, position).None?
        <==> position < 0 || position > |actions| || position == current
  {
  }

  /**
   * A batch holds one action per step between the cursors, goes back exactly
   * when the target lies before the cursor, and its k-th entry is the action
   * replayed k-th: counting down from the cursor when undoing, up when redoing.
   */
  lemma HistoryJumpSteps(actions: seq<Action>, current: nat, position: int, k: nat)
    requires current <= |actions|
    requires HistoryJump(actions, current, position).Some?
    ensures var b := HistoryJump(actions, current, position).value;
      && 0 <= position <= |actions|
      && (b.direction == UndoDirection <==> position < current)
      && |b.actions| == (if position < current then current - position else position - current)
      && (k < |b.actions| ==>
            b.actions[k] == if position < current then actions[current - 1 - k] else actions[current + k])
  {
    if position < current && k < current - position {
      ReverseAt(actions[position..current], k);
    }
  }

  /** One step back by jumping hands back the same action as a single undo would. */
  lemma JumpOneBackIsUndo(actions: seq<Action>, current: nat)
    requires 0 < current <= |actions|
    ensures HistoryJump(actions, current, current - 1) == Some(Batch(UndoDirection, [actions[current - 1]]))
  {
    var x := actions[current - 1];
    assert actions[current - 1..current] == [x];
    ReverseAt([x], 0);
    assert Reverse([x]) == [x];
  }

  /** One step forward by jumping hands back the same action as a single redo would. */
  lemma JumpOneForwardIsRedo(actions: seq<Action>, current: nat)
    requires current < |actions|
    ensures HistoryJump(actions, current, current + 1) == Some(Batch(RedoDirection, [actions[current]]))
  {
    assert actions[current..current + 1] == [actions[current]];
  }

  /** Jumping there and back again replays the same actions in opposite orders and directions. */
  lemma JumpThereAndBack(actions: seq<Action>, current: nat, position: nat)
    requires current <= |actions| && position <= |actions| && position != current
    ensures var there, back := HistoryJump(actions, current, position), HistoryJump(actions, position, current);
      && there.Some? && back.Some?
      && there.value.direction != back.value.direction
      && there.value.actions == Reverse(back.value.actions)
  {
    if position > current {
      ReverseReverse(actions[current..position]);
    }
  }

  /** Two jumps in the same direction replay exactly what one jump straight to the end would. */
  lemma JumpsCompose(actions: seq<Action>, a: nat, b: nat, c: nat)
    requires a <= |actions| && b <= |actions| && c <= |actions|
    requires (a < b < c) || (a > b > c)
    ensures var ab, bc, ac := HistoryJump(actions, a, b), HistoryJump(actions, b, c), HistoryJump(actions, a, c);
      && ab.Some? && bc.Some? && ac.Some?
      && ac.value.direction == ab.value.direction == bc.value.direction
      && ac.value.actions == ab.value.actions + bc.value.actions
  {
    if a < b {
      assert actions[a..c] == actions[a..b] + actions[b..c];
    } else {
      assert actions[c..a] == actions[c..b] + actions[b..a];
      ReverseConcat(actions[c..b], actions[b..a]);
    }
  }

  // ---------------------------------------------------------------------------
  // The engine's state
  // ---------------------------------------------------------------------------

  class HistoryLog {
    var actions: seq<Action>
    var currentPosition: nat

    ghost predicate Valid()
      reads this
    {
      currentPosition <= |actions|
    }

    /** `canUndo`. */
    predicate CanUndo()
      reads this
    {
      currentPosition > 0
    }

    /** `canRedo`. */
    predicate CanRedo()
      reads this
    {
      currentPosition < |actions|
    }

    constructor ()
      ensures Valid() && actions == [] && currentPosition == 0
    {
      actions := [];
      currentPosition := 0;
    }

    /** Drops the redo tail, appends the action, and moves the cursor past it. */
    method AddAction(action: Action)
      requires Valid()
      modifies this
      ensures Valid()
      ensures actions == old(actions[..currentPosition]) + [action]
      ensures currentPosition == old(currentPosition) + 1 == |actions|
      ensures !CanRedo() && CanUndo()
    {
      actions := actions[..currentPosition] + [action];
      currentPosition := currentPosition + 1;
    }

    /** Hands back the newest applied action and steps the cursor back over it; None at the start. */
    method Undo() returns (undone: Option<Action>)
      requires Valid()
      modifies this
      ensures Valid() && actions == old(actions)
      ensures undone.Some? <==> old(CanUndo())
      ensures old(CanUndo()) ==> undone.value == old(actions[currentPosition - 1])
                                 && currentPosition == old(currentPosition) - 1
      ensures !old(CanUndo()) ==> currentPosition == old(currentPosition)
    {
      if currentPosition > 0 {
        undone := Some(actions[currentPosition - 1]);
        currentPosition := currentPosition - 1;
      } else {
        undone := None;
      }
    }

    /** Hands back the oldest undone action and steps the cursor forward over it; None at the end. */
    method Redo() returns (redone: Option<Action>)
      requires Valid()
      modifies this
      ensures Valid() && actions == old(actions)
      ensures redone.Some? <==> old(CanRedo())
      ensures old(CanRedo()) ==> redone.value == old(actions[currentPosition])
                                 && currentPosition == old(currentPosition) + 1
      ensures !old(CanRedo()) ==> currentPosition == old(currentPosition)
    {
      if currentPosition < |actions| {
        redone := Some(actions[currentPosition]);
        currentPosition := currentPosition + 1;
      } else {
        redone := None;
      }
    }

    /** Moves the cursor to any position in range and returns the batch to replay. */
    method GoToHistoryPosition(position: int) returns (batch: Option<Batch>)
      requires Valid()
      modifies this
      ensures Valid() && actions == old(actions)
      ensures batch == HistoryJump(old(actions), old(currentPosition), position)
      ensures currentPosition == if 0 <= position <= |actions| then position else old(currentPosition)
    {
      batch := None;
      if 0 <= position <= |actions| {
        var previousPosition := currentPosition;
        currentPosition := position;
        if position < previousPosition {
          batch := Some(Batch(UndoDirection, Reverse(actions[position..previousPosition])));
        } else if position > previousPosition {
          batch := Some(Batch(RedoDirection, actions[previousPosition..position]));
        }
      }
    }

    method ClearHistory()
      modifies this
      ensures Valid() && actions == [] && currentPosition == 0
      ensures !CanUndo() && !CanRedo()
    {
      actions := [];
      currentPosition := 0;
    }

    /**
     * Builds a record stamped with the clock's time and adds it like
     * AddAction; the record returned is the one appended.
     */
    method CreateAction(kind: string, entity: string, details: map<string, Value>, now: int, hours: nat, minutes: nat)
      returns (action: Action)
      requires Valid() && hours < 24 && minutes < 60
      modifies this
      ensures Valid()
      ensures action == MakeAction(kind, entity, details, now, Timestamp(hours, minutes))
      ensures actions == old(actions[..currentPosition]) + [action]
      ensures currentPosition == old(currentPosition) + 1 == |actions|
      ensures actions[currentPosition - 1] == action
    {
      var timestamp := Timestamp(hours, minutes);
      action := MakeAction(kind, entity, details, now, timestamp);
      AddAction(action);
    }
  }

  /** Undo then redo gives back the same action and cursor; undo then add discards the undone action. */
  method TruncationWalkthrough(a: Action, b: Action, c: Action, d: Action) {
    var log := new HistoryLog();
    log.AddAction(a);
    assert log.actions == [a];
    log.AddAction(b);
    assert log.actions == [a, b];
    log.AddAction(c);
    assert log.actions == [a, b, c] && log.currentPosition == 3;

    var undone := log.Undo();
    var redone := log.Redo();
    assert undone == redone == Some(c) && log.currentPosition == 3;

    undone := log.Undo();
    log.AddAction(d);
    assert log.actions == [a, b, d] && log.currentPosition == 3;
    assert !log.CanRedo();
  }

  /** Four actions added to a fresh log, in order. */
  method LogOfFour(a: Action, b: Action, c: Action, d: Action) returns (log: HistoryLog)
    ensures fresh(log) && log.Valid()
    ensures log.actions == [a, b, c, d] && log.currentPosition == 4
  {
    log := new HistoryLog();
    log.AddAction(a);
    assert log.actions == [a];
    log.AddAction(b);
    assert log.actions == [a, b];
    log.AddAction(c);
    assert log.actions[..3] == [a, b, c];
    log.AddAction(d);
  }

  /** From [a, b, c, d] at 4, jumping to 1 replays d, c, b backwards; an out-of-range jump does nothing. */
  method JumpWalkthrough(a: Action, b: Action, c: Action, d: Action) {
    var log := LogOfFour(a, b, c, d);
    var batch := log.GoToHistoryPosition(1);
    assert log.actions[1..4] == [b, c, d];
    ReverseAt([b, c, d], 0);
    ReverseAt([b, c, d], 1);
    ReverseAt([b, c, d], 2);
    assert Reverse([b, c, d]) == [d, c, b];
    assert batch == Some(Batch(UndoDirection, [d, c, b])) && log.currentPosition == 1;

    batch := log.GoToHistoryPosition(5);
    assert batch == None && log.currentPosition == 1;

    log.ClearHistory();
    var undone := log.Undo();
    assert undone == None;
  }
}
