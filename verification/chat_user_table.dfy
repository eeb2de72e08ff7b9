/** The user table the two chat servers (examples/chat/chat.go and
    connectionmanager/examples/chat/chat.go) keep; the two copies of its
    methods are the same. Unlike ChatUserDirectory it is called directly:
    adding an existing id is not an error but returns the stored user, and
    lookups answer with a found flag, here `Option`. `uuid.New()` is the
    parameter `pubId`. */
module ChatUserTable {
  import opened Base
  import opened ChatUsers

  /** `newUserManager` / `NewUserManager`: empty maps, counter 1. */
  function NewUserManager(): (d: Directory)
    ensures d.user == map[] && d.idMap == map[] && d.nextGuestNumber == 1
    ensures Consistent(d)
  {
    Empty()
  }

  /** `addUser`: an empty name draws a guest name first, whether or not the
      id is known; a known id then returns its stored user, an unknown one is
      registered under its id and its fresh public id. */
  function AddUser(d: Directory, id: string, name: string, pubId: string): (r: (Directory, User))
    // a guest number is used up exactly when no name is given
    ensures r.0.nextGuestNumber == d.nextGuestNumber + (if name == "" then 1 else 0)
    // a known id: the stored user, both maps as they were
    ensures id in d.user ==> r.1 == d.user[id] && r.0.user == d.user && r.0.idMap == d.idMap
    // an unknown id: a user with that id, the public id and the chosen name
    ensures id !in d.user ==>
      && r.1 == User(if name == "" then GuestName(d.nextGuestNumber) else name, id, pubId)
      && r.0.user == d.user[id := r.1] && r.0.idMap == d.idMap[pubId := id]
  {
    var (named, d1) := if name == "" then NextGuestName(d) else (name, d);
    if id in d.user then (d1, d.user[id])
    else
      var u := User(named, id, pubId);
      (Insert(d1, u), u)
  }

  /** `getUserById`. */
  function GetUserById(d: Directory, id: string): (r: Option<User>)
    ensures r.Some? <==> id in d.user
    ensures r.Some? ==> r.value == d.user[id]
  {
    if id in d.user then Some(d.user[id]) else None
  }

  /** `getUserByPubId`: map the public id to an id, then look that id up;
      an unmapped public id finds nothing. */
  function GetUserByPubId(d: Directory, pid: string): (r: Option<User>)
    ensures pid !in d.idMap ==> r == None
    ensures pid in d.idMap ==> r == GetUserById(d, d.idMap[pid])
  {
    if pid !in d.idMap then None else GetUserById(d, d.idMap[pid])
  }

  /** Adding a known id again returns it as stored — same name, same public
      id, no new public id mapped — even when a name is given or a guest
      number is spent. */
  lemma AddExistingKeepsUser(d: Directory, id: string, name: string, pubId: string)
    requires Consistent(d) && id in d.user
    ensures var (d', u) := AddUser(d, id, name, pubId);
      && Consistent(d')
      && u.name == d.user[id].name && u.pubId == d.user[id].pubId
      && GetUserById(d', id) == Some(u)
      && (pubId != d.user[id].pubId ==> GetUserByPubId(d', pubId) == GetUserByPubId(d, pubId))
      && (name == "" <==> d'.nextGuestNumber > d.nextGuestNumber)
  {
  }

  /** A new user is found by its public id and by its id, the table stays
      consistent, and every earlier user is still found under both keys. */
  lemma AddNewFindable(d: Directory, id: string, name: string, pubId: string)
    requires Consistent(d) && id !in d.user && pubId !in d.idMap
    ensures var (d', u) := AddUser(d, id, name, pubId);
      && Consistent(d')
      && GetUserByPubId(d', pubId) == Some(u)
      && GetUserById(d', id) == Some(u)
      && forall k :: k in d.user ==>
           GetUserById(d', k) == Some(d.user[k]) && GetUserByPubId(d', d.user[k].pubId) == Some(d.user[k])
  {
    var d1 := if name == "" then NextGuestName(d).1 else d;
    InsertKeepsConsistent(d1, AddUser(d, id, name, pubId).1);
  }

  /** In a consistent table a public id finds a user exactly when it is
      mapped, and then the user holding it; a user's public id finds that
      user. */
  lemma LookupsAgree(d: Directory, id: string, pid: string)
    requires Consistent(d)
    ensures GetUserByPubId(d, pid).Some? <==> pid in d.idMap
    ensures GetUserByPubId(d, pid).Some? ==> GetUserByPubId(d, pid).value.pubId == pid
    ensures id in d.user ==> GetUserByPubId(d, d.user[id].pubId) == GetUserById(d, id)
  {
  }
}
