/** The command-driven user directory of examples/chat/usermanager.go: a
    goroutine that serves add and lookup commands one at a time, each
    answered with a payload or an error. As with the registries, one
    command is the pure function `Step`; `uuid.New()` is the parameter
    `pubId`. */
module ChatUserDirectory {
  import opened Base
  import opened ChatUsers

  const CommandStop := 0
  const CommandGetUserById := 1
  const CommandGetUserByPubId := 2
  const CommandAddUser := 3
  const CommandRemoveUser := 4

  /** `userManagerCommandResponse`: a user, or an error message. The reply to
      a stop command carries neither. */
  datatype Response = Response(payload: Option<User>, err: Option<string>)

  /** A command: its type, the id or public id it is about, and the name an
      added user asks for. */
  datatype Command = Command(commandType: int, key: string, name: string)

  /** The directory after a command, the reply sent (if any), and whether
      the handler loop returned. */
  datatype Turn = Turn(dir: Directory, reply: Option<Response>, stopped: bool)

  /** `NewUserManager`: empty maps, the first guest is number 1. */
  function NewUserManager(): (d: Directory)
    ensures d.user == map[] && d.idMap == map[] && d.nextGuestNumber == 1
    ensures Consistent(d)
  {
    Empty()
  }

  /** `internalAddUser`: refuse an id that is taken; otherwise name the user
      (a guest name when no name is given) and register it under its id and
      its fresh public id. */
  function AddUser(d: Directory, id: string, name: string, pubId: string): (r: (Directory, Response))
    // a taken id is an error and changes nothing, the counter included
    ensures id in d.user <==> r.1.err.Some?
    ensures id in d.user ==> r.0 == d && r.1 == Response(None, Some("user already exists: " + id))
    ensures r.0.user.Keys == d.user.Keys + {id}
    // otherwise the reply is the stored user, found under both keys
    ensures id !in d.user ==>
      && r.1.payload == Some(r.0.user[id])
      && r.0.user[id].id == id && r.0.user[id].pubId == pubId
      && pubId in r.0.idMap && r.0.idMap[pubId] == id
    // a given name is kept, an empty one is replaced by the next guest name
    ensures id !in d.user && name != "" ==>
      r.0.user[id].name == name && r.0.nextGuestNumber == d.nextGuestNumber
    ensures id !in d.user && name == "" ==>
      r.0.user[id].name == GuestName(d.nextGuestNumber) && r.0.nextGuestNumber == d.nextGuestNumber + 1
  {
    if id in d.user then
      (d, Response(None, Some("user already exists: " + id)))
    else
      var (named, d1) := if name == "" then NextGuestName(d) else (name, d);
      var u := User(named, id, pubId);
      (Insert(d1, u), Response(Some(u), None))
  }

  /** `internalGetUserById`. */
  function GetUserById(d: Directory, id: string): (r: Response)
    ensures id in d.user ==> r == Response(Some(d.user[id]), None)
    ensures id !in d.user ==> r == Response(None, Some("unknown user ID: " + id))
  {
    if id in d.user then Response(Some(d.user[id]), None)
    else Response(None, Some("unknown user ID: " + id))
  }

  /** `internalGetUserByPubId` as written: when the public id is not mapped
      the message formats `id`, which the failed lookup left at "", so the
      public id asked about never appears in it. */
  function GetUserByPubIdAsWritten(d: Directory, pid: string): (r: Response)
    ensures pid !in d.idMap ==> r == Response(None, Some("unknown user pubID: "))
    ensures pid in d.idMap ==> r == GetUserByPubId(d, pid)
  {
    var id := if pid in d.idMap then d.idMap[pid] else "";
    if pid !in d.idMap then
      assert "unknown user pubID: " + id == "unknown user pubID: ";
      Response(None, Some("unknown user pubID: " + id))
    else if id in d.user then Response(Some(d.user[id]), None)
    else Response(None, Some("unknown user ID " + id + " via pubID " + pid))
  }

  /** The message the as-written lookup gives for an unmapped public id is
      the same for every such id: it cannot say which one was asked for. */
  lemma PubIdErrorAsWrittenLosesPid(d: Directory, p: string, q: string)
    requires p !in d.idMap && q !in d.idMap && p != q
    ensures GetUserByPubIdAsWritten(d, p).err == GetUserByPubIdAsWritten(d, q).err
  {
  }

  /** `internalGetUserByPubId` with the unmapped case naming the public id
      asked about: map the public id to an id, then look that id up. */
  function GetUserByPubId(d: Directory, pid: string): (r: Response)
    ensures pid !in d.idMap ==> r == Response(None, Some("unknown user pubID: " + pid))
    ensures pid in d.idMap && d.idMap[pid] in d.user ==> r == Response(Some(d.user[d.idMap[pid]]), None)
    ensures pid in d.idMap && d.idMap[pid] !in d.user ==>
      r == Response(None, Some("unknown user ID " + d.idMap[pid] + " via pubID " + pid))
  {
    if pid !in d.idMap then Response(None, Some("unknown user pubID: " + pid))
    else
      var id := d.idMap[pid];
      if id in d.user then Response(Some(d.user[id]), None)
      else Response(None, Some("unknown user ID " + id + " via pubID " + pid))
  }

  /** With the public id in the message, different unmapped public ids give
      different errors, so the message tells which one was asked for. */
  lemma PubIdErrorNamesPid(d: Directory, p: string, q: string)
    requires p !in d.idMap && q !in d.idMap && p != q
    ensures GetUserByPubId(d, p).err != GetUserByPubId(d, q).err
  {
    var prefix := "unknown user pubID: ";
    assert (prefix + p)[|prefix|..] == p;
    assert (prefix + q)[|prefix|..] == q;
  }

  /** In a consistent directory the two lookups agree: a user's public id
      finds exactly what its id finds, a public id finds a user exactly when
      it is mapped, and the "via pubID" error cannot occur. */
  lemma LookupsAgree(d: Directory, id: string, pid: string)
    requires Consistent(d)
    ensures id in d.user ==> GetUserByPubId(d, d.user[id].pubId) == GetUserById(d, id)
    ensures GetUserByPubId(d, pid).payload.Some? <==> pid in d.idMap
    ensures GetUserByPubId(d, pid).payload.Some? ==> GetUserByPubId(d, pid).payload.value.pubId == pid
  {
  }

  /** What the caller of `GetUserById` and `AddUser` gets right after a
      successful add: the user just added, under its id and under its public
      id, with the same name, id and public id both ways. */
  lemma AddThenLookup(d: Directory, id: string, name: string, pubId: string)
    requires Consistent(d) && id !in d.user && pubId !in d.idMap
    ensures var (d', resp) := AddUser(d, id, name, pubId);
      && Consistent(d')
      && GetUserById(d', id) == resp
      && GetUserByPubId(d', pubId) == resp
      && resp.payload.value.name == (if name == "" then GuestName(d.nextGuestNumber) else name)
  {
    var d1 := if name == "" then NextGuestName(d).1 else d;
    InsertKeepsConsistent(d1, AddUser(d, id, name, pubId).1.payload.value);
  }

  /** Adding a user leaves every user added earlier retrievable, unchanged,
      by id and by public id. */
  lemma EarlierUsersStay(d: Directory, id: string, name: string, pubId: string, other: string)
    requires Consistent(d) && pubId !in d.idMap
    requires other in d.user
    ensures var d' := AddUser(d, id, name, pubId).0;
      && GetUserById(d', other) == GetUserById(d, other)
      && GetUserByPubId(d', d.user[other].pubId) == GetUserByPubId(d, d.user[other].pubId)
  {
    if id !in d.user {
      var d1 := if name == "" then NextGuestName(d).1 else d;
      InsertKeepsConsistent(d1, AddUser(d, id, name, pubId).1.payload.value);
    }
  }

  /** A public id no user holds: what `uuid.New()` is relied on to produce. */
  predicate FreshPubId(d: Directory, pubId: string) {
    pubId !in d.idMap
  }

  /** One turn of `requestHandler`: stop replies with an empty response and
      returns; the lookups and the add reply and go on, the public-id lookup
      as written, with its message that omits the public id; any other command
      type, `commandRemoveUser` among them, matches no case, so nothing is
      sent back and nothing changes. */
  function Step(d: Directory, c: Command, pubId: string): (t: Turn)
    requires Consistent(d)
    requires c.commandType == CommandAddUser ==> FreshPubId(d, pubId)
    ensures Consistent(t.dir)
    ensures t.stopped <==> c.commandType == CommandStop
    ensures t.stopped ==> t.reply == Some(Response(None, None))
    ensures t.reply.None? <==> c.commandType !in {CommandStop, CommandGetUserById, CommandGetUserByPubId, CommandAddUser}
    ensures c.commandType != CommandAddUser ==> t.dir == d
    // a lookup finds a user exactly when its key is registered
    ensures c.commandType == CommandGetUserById ==> (t.reply.value.payload.Some? <==> c.key in d.user)
    ensures c.commandType == CommandGetUserByPubId ==> (t.reply.value.payload.Some? <==> c.key in d.idMap)
    // only an add changes the directory, and only by adding
    ensures d.user.Keys <= t.dir.user.Keys && d.idMap.Keys <= t.dir.idMap.Keys
  {
    if c.commandType == CommandStop then Turn(d, Some(Response(None, None)), true)
    else if c.commandType == CommandGetUserById then Turn(d, Some(GetUserById(d, c.key)), false)
    else if c.commandType == CommandGetUserByPubId then
      LookupsAgree(d, "", c.key);
      Turn(d, Some(GetUserByPubIdAsWritten(d, c.key)), false)
    else if c.commandType == CommandAddUser then
      var r := AddUser(d, c.key, c.name, pubId);
      assert Consistent(r.0) by {
        if c.key !in d.user { AddThenLookup(d, c.key, c.name, pubId); }
      }
      Turn(r.0, Some(r.1), false)
    else Turn(d, None, false)
  }

  /** The scenario of the package's test: from a new manager, add users
      "alpha", "bravo" and "charlie" named "idA", "idB" and "idC"; each is
      then found by id with its name and id, and found again by its public
      id as the same user, however the three additions interleave with the
      lookups. */
  lemma ThreeUsersScenario(pa: string, pb: string, pc: string)
    requires pa != pb && pb != pc && pa != pc
    ensures var d1 := Step(NewUserManager(), Command(CommandAddUser, "alpha", "idA"), pa).dir;
      var d2 := Step(d1, Command(CommandAddUser, "bravo", "idB"), pb).dir;
      var d3 := Step(d2, Command(CommandAddUser, "charlie", "idC"), pc).dir;
      && Found(d3, "alpha", "idA") && Found(d3, "bravo", "idB") && Found(d3, "charlie", "idC")
      && Found(d2, "alpha", "idA") && Found(d2, "bravo", "idB") && Found(d1, "alpha", "idA")
  {
    var d0 := NewUserManager();
    var d1 := Step(d0, Command(CommandAddUser, "alpha", "idA"), pa).dir;
    AddThenLookup(d0, "alpha", "idA", pa);
    var d2 := Step(d1, Command(CommandAddUser, "bravo", "idB"), pb).dir;
    AddThenLookup(d1, "bravo", "idB", pb);
    EarlierUsersStay(d1, "bravo", "idB", pb, "alpha");
    var d3 := Step(d2, Command(CommandAddUser, "charlie", "idC"), pc).dir;
    AddThenLookup(d2, "charlie", "idC", pc);
    EarlierUsersStay(d2, "charlie", "idC", pc, "alpha");
    EarlierUsersStay(d2, "charlie", "idC", pc, "bravo");
  }

  /** What the test's `userTest` checks of one user: found by id with the
      expected name and id, and found by its public id as the same user. */
  predicate Found(d: Directory, id: string, name: string) {
    var byId := GetUserById(d, id);
    && byId.err.None? && byId.payload.Some?
    && byId.payload.value.name == name && byId.payload.value.id == id
    && GetUserByPubId(d, byId.payload.value.pubId) == byId
  }
}
