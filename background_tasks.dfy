/**
 * Console input routing and the shutdown decision
 * (Sources/BackgroundTasks.swift).  The task loop of Sources/main.swift
 * routes console input with the same code, so `RouteInput` and
 * `HandleInput` model both.
 */
module BackgroundTasks {
  import opened Wrappers
  import opened Strings
  import opened Chat

  /** `rooms.index(where: { roomID == $0.roomID })`. */
  function RoomIndex(rooms: seq<ChatRoom>, roomID: int): (r: Option<nat>)
    ensures r.Some? ==> r.value < |rooms| && rooms[r.value].roomID == roomID
    ensures r.Some? ==> forall k :: 0 <= k < r.value ==> rooms[k].roomID != roomID
    ensures r.None? ==> forall k :: 0 <= k < |rooms| ==> rooms[k].roomID != roomID
  {
    if rooms == [] then None
    else if rooms[0].roomID == roomID then Some(0)
    else match RoomIndex(rooms[1..], roomID)
      case None => None
      case Some(k) => Some(k + 1)
  }

  /** Where a line of console input is dispatched: a room, by position, and the message text. */
  datatype Route = Route(roomIndex: nat, content: string)

  /**
   * A first whitespace component `>N` sends the remaining components, joined
   * by spaces, to the first room whose id is `N`; an `N` that is not an
   * integer or names no room sends nothing; any other input goes, whole, to
   * the first room.
   */
  function RouteInput(input: string, rooms: seq<ChatRoom>): Option<Route>
  {
    var components := Split(input, IsWhitespace);
    var first := components[0];
    if |first| > 0 && first[0] == '>' then
      match ParseInt(first[1..])
      case None => None
      case Some(roomID) =>
        match RoomIndex(rooms, roomID)
        case None => None
        case Some(k) => Some(Route(k, Join(components[1..], " ")))
    else Some(Route(0, input))
  }

  /** `handleInput(input:rooms:listener:)`; `rooms.first!` needs a room. */
  method HandleInput(input: string, rooms: seq<ChatRoom>, listener: ChatListener)
    requires |rooms| > 0
    modifies listener
    ensures match RouteInput(input, rooms)
      case None => listener.processed == old(listener.processed)
      case Some(route) =>
        route.roomIndex < |rooms|
        && listener.processed == old(listener.processed)
           + [Processed(rooms[route.roomIndex], ChatMessage(rooms[route.roomIndex], 0, route.content), false)]
  {
    var messageContent := input;
    var components := Split(input, IsWhitespace);
    var firstComponent := components[0];
    var room: ChatRoom;
    if |firstComponent| > 0 && firstComponent[0] == '>' {
      var roomID := ParseInt(firstComponent[1..]);
      if roomID.None? {
        return;  // invalid room id
      }
      var roomIndex := RoomIndex(rooms, roomID.value);
      if roomIndex.None? {
        return;  // not in that room
      }
      room := rooms[roomIndex.value];
      messageContent := Join(components[1..], " ");
    } else {
      room := rooms[0];
    }
    listener.ProcessMessage(room, ChatMessage(room, 0, messageContent), false);
  }

  /** The first component starts with `>` exactly when the input does. */
  lemma FirstComponentStart(input: string)
    ensures var first := Split(input, IsWhitespace)[0];
            (|first| > 0 && first[0] == '>') <==> (|input| > 0 && input[0] == '>')
  {
  }

  /** Input that does not start with `>` goes, unchanged, to the first room. */
  lemma UnprefixedInputGoesToFirstRoom(input: string, rooms: seq<ChatRoom>)
    requires |input| == 0 || input[0] != '>'
    ensures RouteInput(input, rooms) == Some(Route(0, input))
  {
  }

  /**
   * `>N`, a whitespace character and `rest` go to the first room whose id is
   * `N`, as the components of `rest` joined by single spaces.
   */
  lemma RouteToNamedRoom(roomID: int, c: char, rest: string, rooms: seq<ChatRoom>)
    requires IntMin <= roomID <= IntMax && IsWhitespace(c)
    requires RoomIndex(rooms, roomID).Some?
    ensures RouteInput(">" + ShowInt(roomID) + [c] + rest, rooms)
            == Some(Route(RoomIndex(rooms, roomID).value, Join(Split(rest, IsWhitespace), " ")))
  {
    var prefix := ">" + ShowInt(roomID);
    assert NoSeparator(prefix, IsWhitespace) by {
      assert AllDigits(ShowNat(if roomID < 0 then -roomID else roomID));
    }
    SplitAfterPrefix(prefix, c, rest, IsWhitespace);
    assert prefix[1..] == ShowInt(roomID);
    ParseShowRoundTrip(roomID);
  }

  /** Nothing is dispatched exactly when a `>` prefix names no joined room by an integer id. */
  lemma NothingDispatched(input: string, rooms: seq<ChatRoom>)
    ensures RouteInput(input, rooms) == None <==>
      |input| > 0 && input[0] == '>'
      && var id := ParseInt(Split(input, IsWhitespace)[0][1..]);
         (id == None || forall k :: 0 <= k < |rooms| ==> rooms[k].roomID != id.value)
  {
  }

  /** A dispatch always names one of the rooms. */
  lemma RouteInBounds(input: string, rooms: seq<ChatRoom>)
    requires |rooms| > 0
    ensures RouteInput(input, rooms).Some? ==> RouteInput(input, rooms).value.roomIndex < |rooms|
  {
  }

  // ---------------------------------------------------------------------
  // Shutting down

  /** `ChatListener.StopReason`. */
  datatype StopReason = Halt | Reboot | Update

  datatype ProcessStep = ChangeDirectory(path: string) | Exec(program: string) | Exit(status: int)

  /**
   * What `shutDown` does to the process once the rooms are left: a reboot or
   * an update re-executes the bot (an update the installed `FireAlarm`, a
   * reboot its own `argv[0]` from the original directory) and exits with 1
   * if that fails; any other reason exits with 0.
   */
  function ShutDownSteps(reason: StopReason, argv0: string, originalWorkingDirectory: string,
                         execSucceeds: bool): seq<ProcessStep>
  {
    var shouldReboot := reason == Reboot || reason == Update;
    if shouldReboot then
      (if reason == Update then [Exec("FireAlarm")] else [ChangeDirectory(originalWorkingDirectory), Exec(argv0)])
      + (if execSucceeds then [] else [Exit(1)])
    else [Exit(0)]
  }

  /**
   * The process is re-executed exactly for a reboot or an update, and ends
   * with status 1 exactly when that exec fails, with 0 exactly when there
   * is none.
   */
  lemma ShutDownOutcome(reason: StopReason, argv0: string, originalWorkingDirectory: string, execSucceeds: bool)
    ensures var steps := ShutDownSteps(reason, argv0, originalWorkingDirectory, execSucceeds);
      && |steps| > 0
      && ((exists p :: Exec(p) in steps) <==> reason == Reboot || reason == Update)
      && (reason == Update ==> steps[0] == Exec("FireAlarm"))
      && (reason == Reboot ==> |steps| >= 2 && steps[..2] == [ChangeDirectory(originalWorkingDirectory), Exec(argv0)])
      && (steps[|steps| - 1] == Exit(1) <==> reason != Halt && !execSucceeds)
      && (steps[|steps| - 1] == Exit(0) <==> reason == Halt)
  {
  }
}
