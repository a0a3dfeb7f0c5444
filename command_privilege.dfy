/**
 * The `privilege <user> <privilege>` chat command
 * (FireAlarm/CommandPrivilege.swift): grants a named privilege to a user
 * of the room's user database.
 */
module CommandPrivilege {
  import opened Wrappers
  import opened Strings
  import opened Chat

  /** The reply the command sends, and for a grant the privilege and its recipient. */
  datatype Reply =
    | Usage
    | NotAValidPrivilege(privilegeName: string)
    | UnknownUser
    | AlreadyHasPrivilege
    | Granted(priv: Privileges, user: ChatUser)

  /** Names compare case-insensitively. */
  predicate SameName(a: string, b: string) { Lower(a) == Lower(b) }

  /**
   * The position of the first entry of `privilegeNames` (each a privilege
   * and its name) whose name is `name` up to case.
   */
  function PrivilegeIndex(privilegeNames: seq<(Privileges, string)>, name: string): (r: Option<nat>)
    ensures r.Some? ==> r.value < |privilegeNames| && SameName(privilegeNames[r.value].1, name)
    ensures r.Some? ==> forall j :: 0 <= j < r.value ==> !SameName(privilegeNames[j].1, name)
    ensures r.None? ==> forall j :: 0 <= j < |privilegeNames| ==> !SameName(privilegeNames[j].1, name)
  {
    if privilegeNames == [] then None
    else if SameName(privilegeNames[0].1, name) then Some(0)
    else match PrivilegeIndex(privilegeNames[1..], name)
      case None => None
      case Some(k) => Some(k + 1)
  }

  /**
   * `user` designates a chat user by their id, by their name without spaces
   * up to case, or by the id in a profile URL.
   */
  predicate Designates(u: ChatUser, user: string, idFromURL: Option<int>)
  {
    ParseInt(user) == Some(u.id)
    || Lower(RemoveAll(u.name, ' ')) == Lower(user)
    || idFromURL == Some(u.id)
  }

  /** The position of the first user of `userDB` that `user` designates. */
  function UserIndex(userDB: seq<ChatUser>, user: string, idFromURL: Option<int>): (r: Option<nat>)
    ensures r.Some? ==> r.value < |userDB| && Designates(userDB[r.value], user, idFromURL)
    ensures r.Some? ==> forall j :: 0 <= j < r.value ==> !Designates(userDB[j], user, idFromURL)
    ensures r.None? ==> forall j :: 0 <= j < |userDB| ==> !Designates(userDB[j], user, idFromURL)
  {
    if userDB == [] then None
    else if Designates(userDB[0], user, idFromURL) then Some(0)
    else match UserIndex(userDB[1..], user, idFromURL)
      case None => None
      case Some(k) => Some(k + 1)
  }

  /** The reply the command owes to `arguments`, given the users' current privileges. */
  function Expected(arguments: seq<string>, userDB: seq<ChatUser>, privilegeNames: seq<(Privileges, string)>,
                    postIDFromURL: string -> Option<int>): Reply
    reads userDB
  {
    if |arguments| != 2 then Usage
    else
      var user := arguments[0];
      var privilegeName := arguments[1];
      match PrivilegeIndex(privilegeNames, privilegeName)
      case None => NotAValidPrivilege(privilegeName)
      case Some(p) =>
        var priv := privilegeNames[p].0;
        match UserIndex(userDB, user, postIDFromURL(user))
        case None => UnknownUser
        case Some(k) =>
          if priv <= userDB[k].privileges then AlreadyHasPrivilege else Granted(priv, userDB[k])
  }

  /**
   * `CommandPrivilege.run`: replies as `Expected` says, and on a grant adds
   * the privilege to the target's set; no other user's privileges change.
   */
  method Run(arguments: seq<string>, room: ChatRoom, privilegeNames: seq<(Privileges, string)>,
             postIDFromURL: string -> Option<int>) returns (reply: Reply)
    modifies room.userDB`privileges
    ensures reply == old(Expected(arguments, room.userDB, privilegeNames, postIDFromURL))
    ensures reply.Granted? ==> reply.user.privileges == old(reply.user.privileges) + reply.priv
    ensures forall u :: u in room.userDB && !(reply.Granted? && u == reply.user) ==>
              u.privileges == old(u.privileges)
  {
    if |arguments| != 2 {
      return Usage;
    }
    var user := arguments[0];
    var privilegeName := arguments[1];

    var privilege: Option<Privileges> := None;
    var i := 0;
    while i < |privilegeNames|
      invariant 0 <= i <= |privilegeNames|
      invariant forall j :: 0 <= j < i ==> !SameName(privilegeNames[j].1, privilegeName)
    {
      if Lower(privilegeNames[i].1) == Lower(privilegeName) {
        privilege := Some(privilegeNames[i].0);
        break;
      }
      i := i + 1;
    }
    if privilege.None? {
      return NotAValidPrivilege(privilegeName);
    }
    assert PrivilegeIndex(privilegeNames, privilegeName) == Some(i);
    var priv := privilege.value;

    var idFromURL := postIDFromURL(user);
    var userDB := room.userDB;
    var targetUser: ChatUser? := null;
    var k := 0;
    while k < |userDB|
      invariant 0 <= k <= |userDB|
      invariant forall j :: 0 <= j < k ==> !Designates(userDB[j], user, idFromURL)
    {
      var chatUser := userDB[k];
      if ParseInt(user) == Some(chatUser.id)
         || Lower(RemoveAll(chatUser.name, ' ')) == Lower(user)
         || idFromURL == Some(chatUser.id) {
        targetUser := chatUser;
        break;
      }
      k := k + 1;
    }
    if targetUser == null {
      return UnknownUser;
    }
    assert UserIndex(userDB, user, idFromURL) == Some(k);
    var u := targetUser;

    if priv <= u.privileges {
      return AlreadyHasPrivilege;
    }
    u.privileges := u.privileges + priv;
    reply := Granted(priv, u);
  }

  /**
   * A grant is made only to a user that does not yet hold the privilege, and
   * a second run of the same command then finds the privilege held.
   */
  twostate lemma SecondGrantRefused(arguments: seq<string>, userDB: seq<ChatUser>,
                                    privilegeNames: seq<(Privileges, string)>,
                                    postIDFromURL: string -> Option<int>)
    requires old(Expected(arguments, userDB, privilegeNames, postIDFromURL)).Granted?
    requires var r := old(Expected(arguments, userDB, privilegeNames, postIDFromURL));
             r.user.privileges == old(r.user.privileges) + r.priv
    ensures var r := old(Expected(arguments, userDB, privilegeNames, postIDFromURL));
            !(r.priv <= old(r.user.privileges))
    ensures Expected(arguments, userDB, privilegeNames, postIDFromURL) == AlreadyHasPrivilege
  {
  }

  /**
   * Which reply is sent, each case as an if-and-only-if: the usage text
   * exactly for a wrong argument count; an unknown privilege exactly when no
   * name matches; an unknown user exactly when the privilege is valid and
   * nobody is designated; already held exactly when the first designated
   * user holds the privilege; otherwise a grant of the first matching
   * privilege to the first designated user.
   */
  lemma ReplyCases(arguments: seq<string>, userDB: seq<ChatUser>, privilegeNames: seq<(Privileges, string)>,
                   postIDFromURL: string -> Option<int>)
    ensures var r := Expected(arguments, userDB, privilegeNames, postIDFromURL);
      && (r == Usage <==> |arguments| != 2)
      && (r.NotAValidPrivilege? <==>
            |arguments| == 2 && forall j :: 0 <= j < |privilegeNames| ==> !SameName(privilegeNames[j].1, arguments[1]))
      && (r == UnknownUser <==>
            |arguments| == 2 && PrivilegeIndex(privilegeNames, arguments[1]).Some?
            && forall j :: 0 <= j < |userDB| ==> !Designates(userDB[j], arguments[0], postIDFromURL(arguments[0])))
      && (r == AlreadyHasPrivilege <==>
            |arguments| == 2 && PrivilegeIndex(privilegeNames, arguments[1]).Some?
            && UserIndex(userDB, arguments[0], postIDFromURL(arguments[0])).Some?
            && privilegeNames[PrivilegeIndex(privilegeNames, arguments[1]).value].0
               <= userDB[UserIndex(userDB, arguments[0], postIDFromURL(arguments[0])).value].privileges)
      && (r.Granted? <==>
            |arguments| == 2 && PrivilegeIndex(privilegeNames, arguments[1]).Some?
            && UserIndex(userDB, arguments[0], postIDFromURL(arguments[0])).Some?
            && !(privilegeNames[PrivilegeIndex(privilegeNames, arguments[1]).value].0
                 <= userDB[UserIndex(userDB, arguments[0], postIDFromURL(arguments[0])).value].privileges))
      && (r.Granted? ==>
            (exists k :: 0 <= k < |userDB| && r.user == userDB[k]
                         && Designates(userDB[k], arguments[0], postIDFromURL(arguments[0]))
                         && forall j :: 0 <= j < k ==> !Designates(userDB[j], arguments[0], postIDFromURL(arguments[0])))
            && (exists p :: 0 <= p < |privilegeNames| && r.priv == privilegeNames[p].0
                            && SameName(privilegeNames[p].1, arguments[1])
                            && forall j :: 0 <= j < p ==> !SameName(privilegeNames[j].1, arguments[1]))
            && !(r.priv <= r.user.privileges))
  {
  }
}
