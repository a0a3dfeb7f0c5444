/**
 * Logic of the bot's entry point (Sources/main.swift): which users a report
 * pings, and the note that the startup message carries after an update.
 */
module MainProgram {
  import opened Strings
  import opened Chat

  /** `Filter.ReportReason`. */
  datatype ReportReason = BayesianFilter | BlacklistedUsername | MisleadingLink

  /** Whether a user's notification settings ask for a ping on this report. */
  predicate WantsReport(notified: bool, notificationTags: seq<string>, notificationReasons: seq<string>,
                        tags: seq<string>, reason: ReportReason)
  {
    notified &&
    match reason
    case BayesianFilter =>
      notificationTags == [] || exists t :: t in tags && t in notificationTags
    case BlacklistedUsername =>
      (notificationReasons == [] && notificationTags == []) || "username" in notificationReasons
    case MisleadingLink =>
      (notificationReasons == [] && notificationTags == []) || "misleadingLink" in notificationReasons
  }

  /** The users of `userDB` a report pings, in database order. */
  function Audience(userDB: seq<ChatUser>, tags: seq<string>, reason: ReportReason): seq<ChatUser>
    reads userDB
  {
    if userDB == [] then []
    else
      var u := userDB[|userDB| - 1];
      Audience(userDB[..|userDB| - 1], tags, reason)
      + (if WantsReport(u.notified, u.notificationTags, u.notificationReasons, tags, reason) then [u] else [])
  }

  /** A user's handle: `@` and the name without its spaces. */
  function Handle(name: string): string
  {
    "@" + RemoveAll(name, ' ')
  }

  function Handles(users: seq<ChatUser>): seq<string>
  {
    seq(|users|, i requires 0 <= i < |users| => Handle(users[i].name))
  }

  /** The handles of `users`, joined by single spaces. */
  function Mentions(users: seq<ChatUser>): string
  {
    Join(Handles(users), " ")
  }

  /** `ChatRoom.notificationString(tags:reason:)`. */
  method NotificationString(room: ChatRoom, tags: seq<string>, reason: ReportReason) returns (s: string)
    ensures s == Mentions(Audience(room.userDB, tags, reason))
  {
    var userDB := room.userDB;
    var users: seq<ChatUser> := [];
    for i := 0 to |userDB|
      invariant users == Audience(userDB[..i], tags, reason)
    {
      var user := userDB[i];
      assert userDB[..i + 1][..i] == userDB[..i];
      var shouldNotify := false;
      if user.notified {
        match reason {
          case BayesianFilter =>
            if user.notificationTags != [] {
              for j := 0 to |tags|
                invariant shouldNotify <==> exists t :: t in tags[..j] && t in user.notificationTags
              {
                assert tags[..j + 1] == tags[..j] + [tags[j]];
                if tags[j] in user.notificationTags {
                  shouldNotify := true;
                }
              }
              assert tags[..|tags|] == tags;
            } else {
              shouldNotify := true;
            }
          case BlacklistedUsername =>
            if (user.notificationReasons == [] && user.notificationTags == [])
              || "username" in user.notificationReasons {
              shouldNotify := true;
            }
          case MisleadingLink =>
            if (user.notificationReasons == [] && user.notificationTags == [])
              || "misleadingLink" in user.notificationReasons {
              shouldNotify := true;
            }
        }
      }
      if shouldNotify {
        users := users + [user];
      }
    }
    assert userDB[..|userDB|] == userDB;
    s := Mentions(users);
  }

  /**
   * A user is pinged exactly when they are in the database, have opted in,
   * and their tags and reasons accept the report; in particular a user who
   * has not opted in is never pinged.
   */
  lemma {:induction false} AudienceMembers(userDB: seq<ChatUser>, tags: seq<string>, reason: ReportReason)
    ensures forall u :: u in Audience(userDB, tags, reason) <==>
      u in userDB && WantsReport(u.notified, u.notificationTags, u.notificationReasons, tags, reason)
    ensures forall u :: u in userDB && !u.notified ==> u !in Audience(userDB, tags, reason)
  {
    if userDB != [] {
      var init := userDB[..|userDB| - 1];
      AudienceMembers(init, tags, reason);
      assert userDB == init + [userDB[|userDB| - 1]];
    }
  }

  /** The audience keeps database order: it distributes over concatenation. */
  lemma {:induction false} AudienceConcat(a: seq<ChatUser>, b: seq<ChatUser>, tags: seq<string>, reason: ReportReason)
    ensures Audience(a + b, tags, reason) == Audience(a, tags, reason) + Audience(b, tags, reason)
  {
    if b != [] {
      AudienceConcat(a, b[..|b| - 1], tags, reason);
      assert (a + b)[..|a + b| - 1] == a + b[..|b| - 1];
    } else {
      assert a + b == a;
    }
  }

  /**
   * The mention string is empty exactly when nobody is pinged; otherwise it
   * splits on spaces into the handles, each `@` and a space-free name, in order.
   */
  lemma MentionsRoundTrip(users: seq<ChatUser>)
    ensures Mentions(users) == [] <==> users == []
    ensures users != [] ==> Split(Mentions(users), IsSpace) == Handles(users)
    ensures forall h :: h in Handles(users) ==> h[0] == '@' && NoSeparator(h, IsSpace)
  {
    var hs := Handles(users);
    forall h | h in hs ensures |h| > 0 && h[0] == '@' && NoSeparator(h, IsSpace) {
      var i :| 0 <= i < |hs| && hs[i] == h;
      assert h == "@" + RemoveAll(users[i].name, ' ');
    }
    if users != [] {
      SplitJoin(hs, ' ', IsSpace);
      assert hs[0] in hs;
      JoinNonEmpty(hs, " ");
    }
  }

  lemma {:induction false} JoinNonEmpty(parts: seq<string>, sep: string)
    requires parts != [] && parts[0] != []
    ensures Join(parts, sep) != []
  {
  }

  // ---------------------------------------------------------------------
  // The update note of the startup message

  /** The new version, and the note shown after it in the startup message. */
  datatype UpdateNote = UpdateNote(newVersion: string, note: string)

  /**
   * The contents of `version-new.txt` without its newlines, split on spaces:
   * the first component is the new version, and any further components are
   * joined back into a parenthesised note.
   */
  function ReadUpdateNote(contents: string): UpdateNote
  {
    var components := Split(RemoveAll(contents, '\n'), IsSpace);
    UpdateNote(components[0],
               if |components| > 1 then " (" + Join(components[1..], " ") + ")" else "")
  }

  /**
   * The new version is the text before the first space; the note is present
   * exactly when the text has a space, and then it is everything after the
   * first space, in parentheses.
   */
  lemma UpdateNoteSplitsAtFirstSpace(contents: string)
    ensures var text := RemoveAll(contents, '\n');
            var n := ReadUpdateNote(contents);
            && NoSeparator(n.newVersion, IsSpace)
            && (n.note != [] <==> !NoSeparator(text, IsSpace))
            && (n.note == [] ==> n.newVersion == text)
            && (n.note != [] ==> |n.newVersion| < |text| && text[|n.newVersion|] == ' '
                                 && text[..|n.newVersion|] == n.newVersion
                                 && n.note == " (" + text[|n.newVersion| + 1..] + ")")
  {
    var text := RemoveAll(contents, '\n');
    var components := Split(text, IsSpace);
    SplitRoundTrip(text, IsSpace);
    SeparatorsEmpty(text, IsSpace);
    SplitPartsHaveNoSeparator(text, IsSpace);
    JoinSplitSpaces(text);
    assert components[0] in components;
    if |components| > 1 {
      var rest := Join(components[1..], " ");
      assert text == components[0] + " " + rest;
      assert text[|components[0]| + 1..] == rest;
    }
  }
}
