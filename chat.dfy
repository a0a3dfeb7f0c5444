/**
 * The chat-library objects the bot's logic reads and updates: users with
 * their privileges and notification settings, rooms with their user
 * database, and the listener that commands are handed to.
 */
module Chat {

  /** A `ChatUser.Privileges` option set, as the set of bits of its raw value. */
  type Privileges = set<nat>

  class ChatUser {
    const id: int
    const name: string
    var privileges: Privileges
    /** The `notified`, `notificationTags` and `notificationReasons` entries of the user's info. */
    var notified: bool
    var notificationTags: seq<string>
    var notificationReasons: seq<string>

    constructor (id: int, name: string)
      ensures this.id == id && this.name == name
      ensures privileges == {} && !notified && notificationTags == [] && notificationReasons == []
    {
      this.id := id;
      this.name := name;
      privileges := {};
      notified := false;
      notificationTags := [];
      notificationReasons := [];
    }
  }

  class ChatRoom {
    const roomID: int
    var userDB: seq<ChatUser>

    constructor (roomID: int)
      ensures this.roomID == roomID && userDB == []
    {
      this.roomID := roomID;
      userDB := [];
    }
  }

  /** A chat message handed to the command listener; `user` is the id of its author. */
  datatype ChatMessage = ChatMessage(room: ChatRoom, user: int, content: string)

  datatype Processed = Processed(room: ChatRoom, message: ChatMessage, isEdit: bool)

  /** The command listener, reduced to the log of the messages it was given. */
  class ChatListener {
    var processed: seq<Processed>

    constructor ()
      ensures processed == []
    {
      processed := [];
    }

    method ProcessMessage(room: ChatRoom, message: ChatMessage, isEdit: bool)
      modifies this
      ensures processed == old(processed) + [Processed(room, message, isEdit)]
    {
      processed := processed + [Processed(room, message, isEdit)];
    }
  }
}
