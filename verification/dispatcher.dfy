/**
 * The mode registry and the transition rule of src/Dispatcher.ts.
 *
 * The dispatcher owns one mode object per mode id and one current mode. It
 * routes every key to the current mode and switches modes: a switch to the
 * current mode does nothing; otherwise the old mode (if any) is exited, the
 * new one entered, and, only when the old mode was INSERT, the new mode is
 * handed INSERT's recorded command maps. The mode objects' own reactions to
 * these calls are not part of this model; each call is written to a ghost
 * trace of events, and a small automaton says which traces are legal.
 */
module Dispatching {
  import opened Options
  import opened Modes

  datatype ModeId = Normal | Visual | VisualLine | Insert

  /** One call the dispatcher makes on a mode object. */
  datatype Event =
    | Exit(mode: ModeId)
    | Enter(mode: ModeId)
    | RecordFinish(mode: ModeId, maps: seq<CommandMap>)
    | Input(mode: ModeId, key: Key, args: Args)

  /**
   * The events of `switchMode(id)` when the current mode is `previous` and
   * INSERT's recorded command maps are `recorded`.
   */
  function SwitchEvents(previous: Option<ModeId>, id: ModeId, recorded: seq<CommandMap>): (r: seq<Event>)
    // Switching to the current mode calls nothing.
    ensures previous == Some(id) ==> r == []
    // A real switch enters the new mode exactly once ...
    ensures previous != Some(id) ==> Enter(id) in r
    ensures forall k :: 0 <= k < |r| && r[k].Enter? ==> r[k] == Enter(id)
    ensures forall k, j :: 0 <= k < j < |r| && r[k].Enter? ==> !r[j].Enter?
    // ... exits the previous mode first, and only if there is one ...
    ensures (|r| > 0 && r[0].Exit?) <==> previous.Some? && previous != Some(id)
    ensures forall k :: 0 <= k < |r| && r[k].Exit? ==> k == 0 && r[k].mode == previous.value
    // ... and hands over INSERT's recording, after entering, exactly when leaving INSERT.
    ensures RecordFinish(id, recorded) in r <==> previous == Some(Insert) && id != Insert
    ensures forall k :: 0 <= k < |r| && r[k].RecordFinish? ==>
              r[k] == RecordFinish(id, recorded) && 0 < k && r[k - 1] == Enter(id)
    ensures forall e :: e in r ==> !e.Input?
  {
    if previous == Some(id) then []
    else
      (if previous.Some? then [Exit(previous.value)] else [])
      + [Enter(id)]
      + (if previous == Some(Insert) then [RecordFinish(id, recorded)] else [])
  }

  /**
   * Where the dispatcher stands between calls on its modes: at rest with a current
   * mode (or none yet), after exiting a mode, or after entering a mode that is
   * still owed INSERT's recording.
   */
  datatype Phase = Idle(current: Option<ModeId>) | Exited(from: ModeId) | AwaitingRecord(to: ModeId)

  /** The legal order of calls on modes: `None` when `e` may not happen in phase `p`. */
  function Step(p: Phase, e: Event): Option<Phase>
  {
    match (p, e)
    case (Idle(current), Exit(m)) =>
      if current == Some(m) then Some(Exited(m)) else None
    case (Idle(None), Enter(n)) =>
      Some(Idle(Some(n)))
    case (Exited(m), Enter(n)) =>
      if n == m then None
      else if m == Insert then Some(AwaitingRecord(n))
      else Some(Idle(Some(n)))
    case (AwaitingRecord(n), RecordFinish(to, _)) =>
      if to == n then Some(Idle(Some(n))) else None
    case (Idle(Some(c)), Input(m, _, _)) =>
      if m == c then Some(Idle(Some(c))) else None
    case _ => None
  }

  /** The phase after the events `t`, or `None` if `t` is not a legal order of calls. */
  function Accepts(p: Phase, t: seq<Event>): Option<Phase>
    decreases |t|
  {
    if t == [] then Some(p)
    else
      match Step(p, t[0])
      case None => None
      case Some(q) => Accepts(q, t[1..])
  }

  /** Running two traces one after the other is running their concatenation. */
  lemma {:induction false} AcceptsAppend(p: Phase, a: seq<Event>, b: seq<Event>)
    ensures Accepts(p, a + b) == match Accepts(p, a) case None => None case Some(q) => Accepts(q, b)
    decreases |a|
  {
    if a == [] {
      assert a + b == b;
    } else {
      assert (a + b)[1..] == a[1..] + b;
      match Step(p, a[0])
      case None =>
      case Some(q) => AcceptsAppend(q, a[1..], b);
    }
  }

  /** A switch, from any current mode to any mode, is a legal order of calls ending at rest in the new mode. */
  lemma SwitchAccepted(previous: Option<ModeId>, id: ModeId, recorded: seq<CommandMap>)
    ensures Accepts(Idle(previous), SwitchEvents(previous, id, recorded)) == Some(Idle(Some(id)))
  {
    var r := SwitchEvents(previous, id, recorded);
    if previous != Some(id) {
      match previous
      case None =>
        assert r == [Enter(id)];
      case Some(m) =>
        assert Step(Idle(previous), Exit(m)) == Some(Exited(m));
        if m == Insert {
          assert r == [Exit(m), Enter(id), RecordFinish(id, recorded)];
          assert r[1..] == [Enter(id), RecordFinish(id, recorded)];
          assert r[1..][1..] == [RecordFinish(id, recorded)];
          assert Accepts(AwaitingRecord(id), r[1..][1..]) == Some(Idle(Some(id)));
        } else {
          assert r == [Exit(m), Enter(id)];
          assert r[1..] == [Enter(id)];
          assert Accepts(Idle(Some(id)), r[1..][1..]) == Some(Idle(Some(id)));
        }
    }
  }

  /** The mode most recently entered in `t`, if any. */
  function LastEntered(t: seq<Event>): Option<ModeId>
    decreases |t|
  {
    if t == [] then None
    else if LastEntered(t[1..]).Some? then LastEntered(t[1..])
    else if t[0].Enter? then Some(t[0].mode)
    else None
  }

  /** The mode the dispatcher holds as current in phase `p`. */
  function Holding(p: Phase): Option<ModeId>
  {
    match p
    case Idle(current) => current
    case Exited(from) => Some(from)
    case AwaitingRecord(to) => Some(to)
  }

  /**
   * In a legal trace the mode held as current afterwards is the one entered last,
   * or the one held before if the trace enters none.
   */
  lemma {:induction false} AcceptsTracksLastEntered(p: Phase, t: seq<Event>)
    requires Accepts(p, t).Some?
    ensures Holding(Accepts(p, t).value) == if LastEntered(t).Some? then LastEntered(t) else Holding(p)
    decreases |t|
  {
    if t != [] {
      var q := Step(p, t[0]).value;
      AcceptsTracksLastEntered(q, t[1..]);
    }
  }

  /** A mode object as the dispatcher sees it: its id and, for INSERT, the command maps it recorded. */
  class ModeInstance {
    const id: ModeId
    var recordedCommandMaps: seq<CommandMap>

    constructor (id: ModeId)
      ensures this.id == id && recordedCommandMaps == []
    {
      this.id := id;
      recordedCommandMaps := [];
    }
  }

  class Dispatcher {
    /** The fixed registry: one mode object per mode id. */
    const modes: map<ModeId, ModeInstance>
    var currentMode: ModeInstance?
    /** Every call made on a mode object, in order. */
    ghost var trace: seq<Event>

    ghost predicate Registry()
    {
      forall id :: id in modes && modes[id].id == id
    }

    ghost predicate Valid()
      reads this
    {
      && Registry()
      && (currentMode != null ==> currentMode == modes[currentMode.id])
      && Accepts(Idle(None), trace) == Some(Idle(CurrentModeId()))
    }

    /** The `currentModeId` getter: the current mode's id, or none before the first switch. */
    function CurrentModeId(): (r: Option<ModeId>)
      reads this
      ensures r.None? <==> currentMode == null
      ensures currentMode != null ==> r == Some(currentMode.id)
    {
      if currentMode == null then None else Some(currentMode.id)
    }

    constructor ()
      ensures Valid()
      ensures CurrentModeId() == Some(Normal)
      ensures trace == [Enter(Normal)]
      ensures forall id :: id in modes && fresh(modes[id]) && modes[id].recordedCommandMaps == []
    {
      var normal := new ModeInstance(Normal);
      var visual := new ModeInstance(Visual);
      var visualLine := new ModeInstance(VisualLine);
      var insert := new ModeInstance(Insert);
      modes := map[Normal := normal, Visual := visual, VisualLine := visualLine, Insert := insert];
      currentMode := null;
      trace := [];
      new;
      forall id ensures id in modes && modes[id].id == id {
        match id
        case Normal =>
        case Visual =>
        case VisualLine =>
        case Insert =>
      }
      assert CurrentModeId() == None;
      SwitchMode(Normal);
    }

    /** `switchMode(id)`: exit the old mode, enter the new one, hand over INSERT's recording. */
    method SwitchMode(id: ModeId)
      requires Valid()
      modifies this`currentMode, this`trace
      ensures Valid()
      ensures currentMode == modes[id]
      ensures CurrentModeId() == Some(id)
      ensures trace == old(trace) + SwitchEvents(old(CurrentModeId()), id, modes[Insert].recordedCommandMaps)
    {
      ghost var previousId := CurrentModeId();
      ghost var events := SwitchEvents(previousId, id, modes[Insert].recordedCommandMaps);
      SwitchAccepted(previousId, id, modes[Insert].recordedCommandMaps);
      AcceptsAppend(Idle(None), trace, events);
      if currentMode == modes[id] {
        return;
      }
      var previousMode := currentMode;
      if previousMode != null {
        trace := trace + [Exit(previousMode.id)];
      }
      currentMode := modes[id];
      trace := trace + [Enter(currentMode.id)];
      if previousMode != null && previousMode.id == Insert {
        var recordedCommandMaps := previousMode.recordedCommandMaps;
        trace := trace + [RecordFinish(currentMode.id, recordedCommandMaps)];
      }
      assert trace == old(trace) + events;
    }

    /** The handler for one key: forward it, with `{}` as the default arguments, to the current mode. */
    method HandleInput(key: Key, args: Option<Args>)
      requires Valid() && currentMode != null
      modifies this`trace
      ensures Valid()
      ensures trace == old(trace) + [Input(currentMode.id, key, if args.Some? then args.value else map[])]
    {
      var effective := if args.Some? then args.value else map[];
      AcceptsAppend(Idle(None), trace, [Input(currentMode.id, key, effective)]);
      trace := trace + [Input(currentMode.id, key, effective)];
    }
  }
}
