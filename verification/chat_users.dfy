/** The user directory the chat examples keep beside the registry: a map
    from secret id to user, a map from public id back to secret id, and a
    counter for guest names. The same `User` and `UserManager` types are
    declared in examples/chat/usermanager.go and in both chat.go copies;
    their handlers differ and are modelled in ChatUserDirectory and
    ChatUserTable. */
module ChatUsers {
  import opened Base

  /** `User`: display name, secret id and public id. */
  datatype User = User(name: string, id: string, pubId: string)

  /** `UserManager`: `user` maps id to user, `idMap` maps public id to id. */
  datatype Directory = Directory(user: map<string, User>, idMap: map<string, string>, nextGuestNumber: int)

  /** The two maps describe the same users: every user is stored under its
      own id and reachable through its public id, and every public id leads
      to the user holding it. The guest counter has left its start value 1
      only upwards. */
  predicate Consistent(d: Directory) {
    && (forall k :: k in d.user ==>
          d.user[k].id == k && d.user[k].pubId in d.idMap && d.idMap[d.user[k].pubId] == k)
    && (forall p :: p in d.idMap ==> d.idMap[p] in d.user && d.user[d.idMap[p]].pubId == p)
    && d.nextGuestNumber >= 1
  }

  /** The directory both constructors build: no users, counter 1. */
  function Empty(): (d: Directory)
    ensures d.user == map[] && d.idMap == map[] && d.nextGuestNumber == 1
    ensures Consistent(d)
  {
    Directory(map[], map[], 1)
  }

  /** `fmt.Sprintf("Guest%d", n)`. */
  function GuestName(n: int): (s: string)
    ensures |s| > 5 && s[..5] == "Guest"
    // the rest is the counter in decimal, signed when negative
    ensures var digits := if n < 0 then s[6..] else s[5..];
      && (n < 0 <==> s[5] == '-')
      && (forall k :: 0 <= k < |digits| ==> '0' <= digits[k] <= '9')
      && ParseDecimal(digits) == (if n < 0 then -n else n)
  {
    var s := "Guest" + FormatInt(n);
    assert s[5..] == FormatInt(n);
    assert n < 0 ==> s[6..] == FormatInt(n)[1..];
    s
  }

  /** Different counter values give different guest names. */
  lemma GuestNameInjective(a: int, b: int)
    requires a != b
    ensures GuestName(a) != GuestName(b)
  {
    FormatIntInjective(a, b);
    assert GuestName(a)[5..] == FormatInt(a);
    assert GuestName(b)[5..] == FormatInt(b);
  }

  /** `nextGuestName`: the name for the current counter value, and the
      directory with the counter advanced by one and both maps untouched. */
  function NextGuestName(d: Directory): (r: (string, Directory))
    ensures r.1.user == d.user && r.1.idMap == d.idMap
    ensures r.1.nextGuestNumber == d.nextGuestNumber + 1
    ensures |r.0| > 5 && r.0[..5] == "Guest"
  {
    (GuestName(d.nextGuestNumber), d.(nextGuestNumber := d.nextGuestNumber + 1))
  }

  /** A guest name drawn after another one differs from it: the counter
      only grows, so it never returns to a value it has handed out. */
  lemma GuestNamesNeverRepeat(d: Directory, later: Directory)
    requires later.nextGuestNumber > d.nextGuestNumber
    ensures NextGuestName(later).0 != NextGuestName(d).0
  {
    GuestNameInjective(d.nextGuestNumber, later.nextGuestNumber);
  }

  /** `um.idMap[u.pubId] = id; um.user[u.id] = u`: register a user under
      both keys. */
  function Insert(d: Directory, u: User): (r: Directory)
    ensures r.nextGuestNumber == d.nextGuestNumber
    ensures r.user.Keys == d.user.Keys + {u.id} && r.idMap.Keys == d.idMap.Keys + {u.pubId}
    ensures r.user[u.id] == u && r.idMap[u.pubId] == u.id
  {
    d.(user := d.user[u.id := u], idMap := d.idMap[u.pubId := u.id])
  }

  /** Registering a user whose id and public id are both unused keeps the
      maps consistent and every earlier user as it was, under both keys. */
  lemma InsertKeepsConsistent(d: Directory, u: User)
    requires Consistent(d)
    requires u.id !in d.user && u.pubId !in d.idMap
    ensures Consistent(Insert(d, u))
    ensures forall k :: k in d.user ==> Insert(d, u).user[k] == d.user[k]
    ensures forall p :: p in d.idMap ==> Insert(d, u).idMap[p] == d.idMap[p]
  {
    var r := Insert(d, u);
    forall k | k in r.user
      ensures r.user[k].id == k && r.user[k].pubId in r.idMap && r.idMap[r.user[k].pubId] == k
    {
      if k != u.id {
        assert d.user[k].pubId in d.idMap;
      }
    }
  }
}
