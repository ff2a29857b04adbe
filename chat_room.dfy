/**
 * The two-user chat server: a process-wide set of joined user names and one
 * room. A join is admitted while fewer than two names are recorded and is
 * announced to the room; otherwise only the joiner hears that the room is
 * full. A message is relayed to the room as it came. Socket.IO delivery is not
 * modelled: each handler returns the events it emits.
 */
module ChatRoom {
  import opened PyText

  /** The JSON values an event payload can hold that the handlers can see. */
  datatype Json = Str(s: string) | Int(i: int) | Null

  /** An event's data: a JSON object. */
  type Payload = map<string, Json>

  /** A client connection (its Socket.IO session id). */
  type Sid = nat

  /** Where `emit` sends an event: to every connection in a room, or back to the sender only. */
  datatype Target = ToRoom(name: string) | ToSender

  datatype Event = Event(name: string, data: Payload, to: Target)

  const MainRoom := "main_room"
  const RoomCapacity := 2

  /** `data.get(key)`: the value, or None when the key is absent. */
  function Get(data: Payload, key: string): Json
  {
    if key in data then data[key] else Null
  }

  /** `str(v)` as an f-string renders it. */
  function Display(v: Json): string
  {
    match v
    case Str(s) => s
    case Int(i) => IntToString(i)
    case Null => "None"
  }

  function StatusEvent(msg: string, to: Target): Event
  {
    Event("status", map["msg" := Str(msg)], to)
  }

  /** The connections an event reaches, given the room's members and the sender. */
  function Recipients(e: Event, inRoom: set<Sid>, sender: Sid): set<Sid>
  {
    match e.to
    case ToRoom(_) => inRoom
    case ToSender => {sender}
  }

  /** Whether a join is admitted when `users` is the set of names joined so far. */
  predicate Admits(users: set<Json>)
  {
    |users| < RoomCapacity
  }

  /** The user set after one join with `username`: added below capacity, unchanged at capacity. */
  function JoinStep(users: set<Json>, username: Json): set<Json>
  {
    if Admits(users) then users + {username} else users
  }

  /** The server's module state: `users`, `room`, and the connections `join_room` put in that room. */
  class ChatServer {
    var users: set<Json>
    var inRoom: set<Sid>
    const room: string

    predicate Valid()
      reads this
    {
      |users| <= RoomCapacity
    }

    constructor ()
      ensures users == {} && inRoom == {} && room == MainRoom
      ensures Valid()
    {
      users := {};
      inRoom := {};
      room := MainRoom;
    }

    /**
     * `handle_join`: below capacity the name is added (a name already present
     * leaves the set as it is), the sender joins the room and the room hears
     * "<name> joined."; at capacity nothing changes and only the sender hears
     * "Room full.".
     */
    method HandleJoin(sender: Sid, data: Payload) returns (emitted: seq<Event>)
      modifies this
      ensures var username := Get(data, "username");
        if Admits(old(users)) then
          && users == old(users) + {username}
          && inRoom == old(inRoom) + {sender}
          && emitted == [StatusEvent(Display(username) + " joined.", ToRoom(room))]
        else
          && users == old(users)
          && inRoom == old(inRoom)
          && emitted == [StatusEvent("Room full.", ToSender)]
      ensures users == JoinStep(old(users), Get(data, "username"))
      ensures old(Valid()) ==> Valid()
    {
      var username := Get(data, "username");
      if |users| < 2 {
        users := users + {username};
        inRoom := inRoom + {sender};
        emitted := [Event("status", map["msg" := Str(Display(username) + " joined.")], ToRoom(room))];
      } else {
        emitted := [Event("status", map["msg" := Str("Room full.")], ToSender)];
      }
    }

    /**
     * `handle_message`: the payload goes unchanged to every connection in the
     * room, whoever sent it and whatever `users` holds.
     */
    method HandleMessage(sender: Sid, data: Payload) returns (emitted: seq<Event>)
      ensures |emitted| == 1
      ensures emitted[0].name == "message" && emitted[0].data == data
      ensures Recipients(emitted[0], inRoom, sender) == inRoom
    {
      emitted := [Event("message", data, ToRoom(room))];
    }
  }

  // ---------------------------------------------------------------------------
  // A sequence of joins

  /** The user set after `HandleJoin` calls with `names`, one after another, starting from `users`. */
  function AfterJoins(users: set<Json>, names: seq<Json>): set<Json>
    decreases |names|
  {
    if names == [] then users
    else AfterJoins(JoinStep(users, names[0]), names[1..])
  }

  /** The set never grows beyond two names. */
  lemma {:induction false} CapacityKept(users: set<Json>, names: seq<Json>)
    requires |users| <= RoomCapacity
    ensures |AfterJoins(users, names)| <= RoomCapacity
    decreases |names|
  {
    if names != [] {
      var next := JoinStep(users, names[0]);
      assert |users + {names[0]}| <= |users| + 1;
      CapacityKept(next, names[1..]);
    }
  }

  /** No handler removes a name: every name joined so far stays. */
  lemma {:induction false} UsersOnlyGrow(users: set<Json>, names: seq<Json>)
    ensures users <= AfterJoins(users, names)
    decreases |names|
  {
    if names != [] {
      var next := JoinStep(users, names[0]);
      UsersOnlyGrow(next, names[1..]);
    }
  }

  /** Once two names have joined, every later join is rejected for the life of the process. */
  lemma {:induction false} FullRoomStaysFull(users: set<Json>, names: seq<Json>)
    requires |users| >= RoomCapacity
    ensures AfterJoins(users, names) == users
  {
    if names != [] {
      FullRoomStaysFull(users, names[1..]);
    }
  }

  /** Below capacity, joining with a name already present leaves the set as it is. */
  lemma RejoinKeepsUsers(users: set<Json>, name: Json)
    requires name in users
    ensures AfterJoins(users, [name]) == users
  {
    assert [name][1..] == [];
  }

  /** Every name of a join sequence is recorded, or the room was full when it came. */
  lemma {:induction false} JoinedOrFull(users: set<Json>, names: seq<Json>, k: nat)
    requires k < |names|
    ensures names[k] in AfterJoins(users, names) || |AfterJoins(users, names)| >= RoomCapacity
    decreases |names|
  {
    var next := JoinStep(users, names[0]);
    if k == 0 {
      UsersOnlyGrow(next, names[1..]);
      if !Admits(users) {
        UsersOnlyGrow(users, names[1..]);
        assert |users| <= |AfterJoins(users, names[1..])| by {
          SubsetCard(users, AfterJoins(users, names[1..]));
        }
      }
    } else {
      JoinedOrFull(next, names[1..], k - 1);
    }
  }

  lemma SubsetCard(a: set<Json>, b: set<Json>)
    requires a <= b
    ensures |a| <= |b|
  {
    assert b == a + (b - a);
  }

  // ---------------------------------------------------------------------------
  // Scenarios

  /** Three clients join as user1, user2, user3: the third hears "Room full." alone. */
  method RoomLimitScenario() returns (third: seq<Event>, users: set<Json>)
    ensures third == [StatusEvent("Room full.", ToSender)]
    ensures users == {Str("user1"), Str("user2")}
  {
    var server := new ChatServer();
    var first := server.HandleJoin(1, map["username" := Str("user1")]);
    assert |server.users| == 1;
    var second := server.HandleJoin(2, map["username" := Str("user2")]);
    assert Str("user1") != Str("user2");
    assert |server.users| == 2;
    third := server.HandleJoin(3, map["username" := Str("user3")]);
    users := server.users;
  }

  /** A repeated name does not fill the room: a third connection with a new name is still admitted. */
  method DuplicateNameScenario() returns (third: seq<Event>, users: set<Json>)
    ensures third == [StatusEvent("user3 joined.", ToRoom(MainRoom))]
    ensures users == {Str("user1"), Str("user3")}
  {
    var server := new ChatServer();
    var first := server.HandleJoin(1, map["username" := Str("user1")]);
    var second := server.HandleJoin(2, map["username" := Str("user1")]);
    assert server.users == {Str("user1")};
    assert |server.users| == 1;
    third := server.HandleJoin(3, map["username" := Str("user3")]);
    assert Display(Str("user3")) + " joined." == "user3 joined.";
    users := server.users;
  }

  /** A join without a username records None and announces "None joined.". */
  method MissingNameScenario() returns (announced: seq<Event>, users: set<Json>)
    ensures announced == [StatusEvent("None joined.", ToRoom(MainRoom))]
    ensures users == {Null}
  {
    var server := new ChatServer();
    announced := server.HandleJoin(1, map[]);
    assert Display(Null) + " joined." == "None joined.";
    users := server.users;
  }
}
