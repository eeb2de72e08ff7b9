/** The older session registry (usermanager/usermanager.go).

    Besides the long-poll state of Mailbox, every user carries a string
    attribute map and a public id, and a login broadcasts a new-user notice
    and answers with the list of users. As in ConnectionManager, the run
    loop is the pure function `Step` over the user table.

    `Fanout`, `FanoutAt` and `FanoutHead` repeat their ConnectionManager
    namesakes over `User` records instead of `Connection`s, as the two Go
    files repeat `broadcast`: the per-user lemma here must also say that
    attributes and public ids are left alone, which a fan-out over bare
    inboxes could not state without splitting the user table in two. */
module UserManager {
  import opened Base
  import opened Mailbox

  // Request and response "type" strings.
  const StopRequest := "stop"
  const StopResponse := "stopresponse"
  const LoginRequest := "login"
  const LoginResponse := "loginresponse"
  const NewUserResponse := "newuserresponse"
  const SetAttrRequest := "setattrrequest"
  const SetAttrResponse := "setattrresponse"
  const GetAttrRequest := "getattrrequest"
  const GetAttrResponse := "getattrresponse"
  const BroadcastRequest := "broadcastrequest"
  const BroadcastResponse := "broadcastresponse"
  const PollRequest := "pollrequest"
  const PollResponse := "pollresponse"
  const Broadcast := "broadcast"

  type Attrs = map<string, string>

  /** A message queued for users: a `NewUserResponse` announcing a login, or
      a `Broadcast` carrying a user's data under the sender's public id. */
  datatype Notice =
    | NewUser(pubId: string, userdata: Attrs)
    | Chat(fromId: string, userdata: Attrs)

  /** `User`: long-poll state, attributes, the secret id and the public id. */
  datatype User = User(inbox: Inbox<Notice>, attr: Attrs, id: string, pubId: string)

  /** The user table, and the number the next `make(chan string)` will be given. */
  datatype Manager = Manager(user: map<string, User>, nextChan: Chan)

  /** A request: its "type" and the fields the handlers read from it. A nil
      "userdata" map is the empty map here. */
  datatype Request = Request(kind: string, id: string, attr: string, value: string, userdata: Attrs)

  /** One element of `buildUserListResponse`: the public id and the
      attributes; the secret id has no place in it. */
  datatype Entry = Entry(pubId: string, userdata: Attrs)

  /** The reply maps, one variant per response type. */
  datatype Reply =
    | SetAttrReply(status: string)
    | GetAttrReply(value: string, status: string)
    | LoginReply(id: string, pubId: string, userdata: Attrs, userlist: seq<Entry>, status: string)
    | StopReply(status: string)
    | PollReply(userchan: Option<Chan>, message: Option<string>, status: string)
    | BroadcastReply(status: string)

  datatype Status = Running | Stopped | Panicked(kind: string)

  datatype Outcome = Outcome(manager: Manager, reply: Option<Reply>, events: seq<Event<Notice>>, status: Status)

  /** What the environment decides for one request: the `uuid.New()` a new
      user gets, and the orders in which `broadcast` and
      `buildUserListResponse` range over the user table. */
  datatype Oracle = Oracle(pubId: string, fanout: seq<string>, listing: seq<string>)

  /** `New`: an empty user table. */
  function New(): (um: Manager)
    ensures um.user == map[] && Inv(um)
  {
    Manager(map[], 0)
  }

  /** `newUser`: empty attributes, the given public id, not polling, nothing queued. */
  function NewUserRecord(id: string, pubId: string): (u: User)
    ensures u.id == id && u.pubId == pubId && u.attr == map[]
    ensures u.inbox.messages == [] && !u.inbox.polling && u.inbox.pollChannel == None
  {
    User(Fresh(), map[], id, pubId)
  }

  /** No user of `um` has public id `p`. */
  predicate FreshPubId(um: Manager, p: string) {
    forall k :: k in um.user ==> um.user[k].pubId != p
  }

  /** User `k` is stored under its own id, is well formed and quiescent,
      and its channel (if any) was made before `um.nextChan`. */
  predicate SessionOk(um: Manager, k: string)
    requires k in um.user
  {
    var u := um.user[k];
    && u.id == k
    && WellFormed(u.inbox)
    && Quiescent(u.inbox)
    && (u.inbox.pollChannel.Some? ==> u.inbox.pollChannel.value < um.nextChan)
  }

  /** The invariant every handler re-establishes; public ids are unique. */
  predicate Inv(um: Manager) {
    && (forall k :: k in um.user ==> SessionOk(um, k))
    && (forall a, b :: a in um.user && b in um.user && a != b ==> um.user[a].pubId != um.user[b].pubId)
  }

  /** The queue of user `k`, empty for an unknown one. */
  function QueueOf(um: Manager, k: string): seq<Notice> {
    if k in um.user then um.user[k].inbox.messages else []
  }

  /** `pollCheck` on a user: the Mailbox flush, leaving the attributes and
      both ids alone. */
  function PollCheckUser(u: User): (r: (User, seq<Event<Notice>>))
    requires WellFormed(u.inbox)
    ensures r.0.attr == u.attr && r.0.id == u.id && r.0.pubId == u.pubId
    ensures WellFormed(r.0.inbox) && Quiescent(r.0.inbox)
    ensures u.inbox.messages == Delivered(r.1, u.id) + r.0.inbox.messages
    ensures r.1 != [] <==> u.inbox.polling && |u.inbox.messages| > 0
    ensures r.1 == [] ==> r.0 == u
    ensures r.1 != [] ==> r.1 == [Deliver(u.id, u.inbox.pollChannel.value, u.inbox.messages)] && !r.0.inbox.polling
  {
    var (b, evs) := PollCheck(u.id, u.inbox);
    (u.(inbox := b), evs)
  }

  /** `broadcast`: in the visiting order `order`, queue `n` for each user and
      run `pollCheck` on it. `FanoutAt` states what this does to each user. */
  function Fanout(users: map<string, User>, order: seq<string>, n: Notice): (r: (map<string, User>, seq<Event<Notice>>))
    requires Distinct(order)
    requires forall k :: k in order ==> k in users && WellFormed(users[k].inbox)
    ensures r.0.Keys == users.Keys
    ensures NoPreempt(r.1)
    ensures forall i :: 0 <= i < |r.1| ==> r.1[i].to in order
    decreases |order|
  {
    if order == [] then (users, [])
    else
      var k := order[0];
      assert k in order;
      DistinctTail(order);
      assert WellFormed(users[k].inbox);
      var pushed := Push(users[k].inbox, n);
      assert pushed.polling == users[k].inbox.polling;
      var (b, evs) := PollCheck(k, pushed);
      var rest := Fanout(users[k := users[k].(inbox := b)], order[1..], n);
      assert forall j :: 0 <= j < |order[1..]| ==> order[1..][j] == order[j + 1];
      (rest.0, evs + rest.1)
  }

  /** What a broadcast does to one user `k`: nothing if it is not visited;
      otherwise exactly one copy of `n` behind its queue, sent at once if
      the user is polling, and its attributes and ids stay as they were. */
  lemma {:induction false} FanoutAt(users: map<string, User>, order: seq<string>, n: Notice, k: string)
    requires Distinct(order)
    requires forall k :: k in order ==> k in users && WellFormed(users[k].inbox)
    requires k in users
    ensures var r := Fanout(users, order, n);
      && (k !in order ==> r.0[k] == users[k] && Delivered(r.1, k) == [])
      && (k in order ==>
            && r.0[k].id == users[k].id
            && r.0[k].pubId == users[k].pubId
            && r.0[k].attr == users[k].attr
            && r.0[k].inbox.pollChannel == users[k].inbox.pollChannel
            && !r.0[k].inbox.polling
            && users[k].inbox.messages + [n] == Delivered(r.1, k) + r.0[k].inbox.messages
            && (users[k].inbox.polling ==> r.0[k].inbox.messages == [])
            && (!users[k].inbox.polling ==> Delivered(r.1, k) == []))
    decreases |order|
  {
    if order != [] {
      FanoutHead(users, order, n);
      var h := order[0];
      var p := PollCheck(h, Push(users[h].inbox, n));
      var users' := users[h := users[h].(inbox := p.0)];
      var rest := Fanout(users', order[1..], n);
      DeliveredAppend(p.1, rest.1, k);
      FanoutAt(users', order[1..], n, k);
      if k != h {
        UntouchedDeliversNothing(p.1, k);
        assert k in order <==> k in order[1..];
      }
    }
  }

  /** The first step of `Fanout`: visit the head of the order, then the rest. */
  lemma FanoutHead(users: map<string, User>, order: seq<string>, n: Notice)
    requires Distinct(order)
    requires forall k :: k in order ==> k in users && WellFormed(users[k].inbox)
    requires order != []
    ensures order[0] in users && WellFormed(Push(users[order[0]].inbox, n))
    ensures var h := order[0];
      var p := PollCheck(h, Push(users[h].inbox, n));
      var users' := users[h := users[h].(inbox := p.0)];
      && Distinct(order[1..]) && h !in order[1..]
      && (forall k :: k in order[1..] ==> k in users' && WellFormed(users'[k].inbox))
      && Fanout(users, order, n) == (Fanout(users', order[1..], n).0, p.1 + Fanout(users', order[1..], n).1)
  {
    assert order[0] in order;
    DistinctTail(order);
    assert forall j :: 0 <= j < |order[1..]| ==> order[1..][j] == order[j + 1];
  }

  /** Broadcasting keeps the invariant and, per user, appends exactly `n`
      to what is delivered or still queued. */
  lemma FanoutKeepsInv(um: Manager, order: seq<string>, n: Notice)
    requires Inv(um)
    requires Enumerates(order, um.user.Keys)
    ensures var r := Fanout(um.user, order, n);
      && Inv(um.(user := r.0))
      && forall k :: k in um.user ==>
           && QueueOf(um, k) + [n] == Delivered(r.1, k) + r.0[k].inbox.messages
           && r.0[k].attr == um.user[k].attr && r.0[k].pubId == um.user[k].pubId
  {
    var r := Fanout(um.user, order, n);
    var um' := um.(user := r.0);
    forall k | k in um.user
      ensures SessionOk(um', k)
      ensures QueueOf(um, k) + [n] == Delivered(r.1, k) + r.0[k].inbox.messages
      ensures r.0[k].attr == um.user[k].attr && r.0[k].pubId == um.user[k].pubId
    {
      assert SessionOk(um, k);
      FanoutAt(um.user, order, n, k);
    }
    forall a, b | a in um'.user && b in um'.user && a != b
      ensures um'.user[a].pubId != um'.user[b].pubId
    {
      FanoutAt(um.user, order, n, a);
      FanoutAt(um.user, order, n, b);
    }
  }

  /** `buildUserListResponse`: one entry per user, in the order `listing`. */
  function UserList(users: map<string, User>, listing: seq<string>): (r: seq<Entry>)
    requires forall k :: k in listing ==> k in users
    ensures |r| == |listing|
    ensures forall i :: 0 <= i < |r| ==> r[i] == Entry(users[listing[i]].pubId, users[listing[i]].attr)
    decreases |listing|
  {
    if listing == [] then []
    else
      assert listing[0] in listing;
      var u := users[listing[0]];
      [Entry(u.pubId, u.attr)] + UserList(users, listing[1..])
  }

  /** The user list has exactly one entry per registered user, showing its
      public id and attributes, and nothing else. */
  lemma UserListExact(users: map<string, User>, listing: seq<string>)
    requires Enumerates(listing, users.Keys)
    ensures var r := UserList(users, listing);
      && |r| == |users|
      && (forall k :: k in users ==> Entry(users[k].pubId, users[k].attr) in r)
      && (forall i :: 0 <= i < |r| ==> exists k :: k in users && r[i] == Entry(users[k].pubId, users[k].attr))
  {
    EnumerationLength(listing, users.Keys);
    var r := UserList(users, listing);
    forall k | k in users ensures Entry(users[k].pubId, users[k].attr) in r {
      var i :| 0 <= i < |listing| && listing[i] == k;
      assert r[i] == Entry(users[k].pubId, users[k].attr);
    }
    forall i | 0 <= i < |r| ensures exists k :: k in users && r[i] == Entry(users[k].pubId, users[k].attr) {
      assert listing[i] in users;
    }
  }

  /** The notice a request fans out to every user, if any. */
  function NoticeOf(um: Manager, req: Request, o: Oracle): Option<Notice>
  {
    if req.kind == LoginRequest then
      var u := LoginUser(um, req, o);
      Some(NewUser(u.pubId, u.attr))
    else if req.kind == BroadcastRequest && req.id in um.user then
      Some(Chat(um.user[req.id].pubId, req.userdata))
    else None
  }

  /** The messages request `req` queues for user `k`. */
  function Enqueued(um: Manager, req: Request, o: Oracle, k: string): seq<Notice> {
    if k in um.user && NoticeOf(um, req, o).Some? then [NoticeOf(um, req, o).value] else []
  }

  /** The logging-in user's record once `newUser` (on a first login) and
      the merge of the supplied user data have run. */
  function LoginUser(um: Manager, req: Request, o: Oracle): (u: User)
    ensures req.id in um.user ==> u == um.user[req.id].(attr := um.user[req.id].attr + req.userdata)
    ensures req.id !in um.user ==> u == NewUserRecord(req.id, o.pubId).(attr := req.userdata)
  {
    var u := if req.id in um.user then um.user[req.id] else NewUserRecord(req.id, o.pubId);
    u.(attr := u.attr + req.userdata)
  }

  /** The table the new-user broadcast ranges over: an existing user's
      attributes are merged in place, a new user is not in it yet. */
  function LoginTable(um: Manager, req: Request, o: Oracle): (users: map<string, User>)
    ensures users.Keys == um.user.Keys
  {
    if req.id in um.user then um.user[req.id := LoginUser(um, req, o)] else um.user
  }

  /** The intermediate values of a login: the user record, the table the
      broadcast ranges over, the notice, the table and events after the
      broadcast, and the user list built from that table. */
  datatype LoginParts = LoginParts(
    user: User, before: map<string, User>, notice: Notice,
    after: map<string, User>, events: seq<Event<Notice>>, list: seq<Entry>)

  function LoginSteps(um: Manager, req: Request, o: Oracle): (p: LoginParts)
    requires Inv(um)
    requires Enumerates(o.fanout, um.user.Keys) && Enumerates(o.listing, um.user.Keys)
    ensures p.after.Keys == um.user.Keys && NoPreempt(p.events)
    ensures forall i :: 0 <= i < |p.events| ==> p.events[i].to in o.fanout
  {
    var u := LoginUser(um, req, o);
    var before := LoginTable(um, req, o);
    assert forall k :: k in before ==> WellFormed(before[k].inbox) by {
      forall k | k in before ensures WellFormed(before[k].inbox) { assert SessionOk(um, k); }
    }
    var notice := NewUser(u.pubId, u.attr);
    var r := Fanout(before, o.fanout, notice);
    LoginParts(u, before, notice, r.0, r.1, UserList(r.0, o.listing))
  }

  /** The `login` case: create the user unless it exists, merge the supplied
      user data into its attributes, broadcast a new-user notice, build the
      user list, and only then insert a new user into the table.
      `LoginKeepsInv`, `LoginRecord`, `LoginNotifies` and
      `LoginListExcludesNewcomer` state what it does. */
  function HandleLogin(um: Manager, req: Request, o: Oracle): (out: Outcome)
    requires Inv(um)
    requires Enumerates(o.fanout, um.user.Keys) && Enumerates(o.listing, um.user.Keys)
    // the id is registered and no user is dropped
    ensures um.user.Keys <= out.manager.user.Keys && req.id in out.manager.user
    ensures out.manager.nextChan == um.nextChan && out.status == Running && NoPreempt(out.events)
    ensures out.reply.Some? && out.reply.value.LoginReply?
  {
    var p := LoginSteps(um, req, o);
    var final := if req.id in um.user then p.after else p.after[req.id := p.user];
    Outcome(Manager(final, um.nextChan), Some(LoginReply(req.id, p.user.pubId, p.user.attr, p.list, "ok")), p.events, Running)
  }

  /** The table before the broadcast satisfies the invariant. */
  lemma LoginTableKeepsInv(um: Manager, req: Request, o: Oracle)
    requires Inv(um)
    ensures Inv(um.(user := LoginTable(um, req, o)))
    ensures forall k :: k in um.user ==>
      && LoginTable(um, req, o)[k].inbox == um.user[k].inbox
      && LoginTable(um, req, o)[k].pubId == um.user[k].pubId
  {
    var um1 := um.(user := LoginTable(um, req, o));
    forall k | k in um1.user ensures SessionOk(um1, k) { assert SessionOk(um, k); }
  }

  /** The table after the new-user broadcast, before a new user is
      inserted, satisfies the invariant, and every user keeps its public id. */
  lemma LoginBroadcastKeepsInv(um: Manager, req: Request, o: Oracle)
    requires Inv(um)
    requires Enumerates(o.fanout, um.user.Keys) && Enumerates(o.listing, um.user.Keys)
    ensures var p := LoginSteps(um, req, o);
      && Inv(Manager(p.after, um.nextChan))
      && forall k :: k in um.user ==> p.after[k].pubId == um.user[k].pubId
  {
    var p := LoginSteps(um, req, o);
    LoginTableKeepsInv(um, req, o);
    FanoutKeepsInv(um.(user := p.before), o.fanout, p.notice);
  }

  /** Login keeps the invariant; a first login needs a public id no user has. */
  lemma LoginKeepsInv(um: Manager, req: Request, o: Oracle)
    requires Inv(um)
    requires Enumerates(o.fanout, um.user.Keys) && Enumerates(o.listing, um.user.Keys)
    requires req.id !in um.user ==> FreshPubId(um, o.pubId)
    ensures Inv(HandleLogin(um, req, o).manager)
  {
    var p := LoginSteps(um, req, o);
    LoginBroadcastKeepsInv(um, req, o);
    var mid := Manager(p.after, um.nextChan);
    if req.id !in um.user {
      assert FreshPubId(mid, p.user.pubId) by {
        forall k | k in mid.user ensures mid.user[k].pubId != p.user.pubId {
          assert mid.user[k].pubId == um.user[k].pubId;
        }
      }
      InsertKeepsInv(mid, p.user);
      assert HandleLogin(um, req, o).manager == mid.(user := mid.user[req.id := p.user]);
    } else {
      assert HandleLogin(um, req, o).manager == mid;
    }
  }

  /** Login adds exactly the id logging in to the table. */
  lemma LoginKeys(um: Manager, req: Request, o: Oracle)
    requires Inv(um)
    requires Enumerates(o.fanout, um.user.Keys) && Enumerates(o.listing, um.user.Keys)
    ensures HandleLogin(um, req, o).manager.user.Keys == um.user.Keys + {req.id}
  {
    var p := LoginSteps(um, req, o);
    assert p.after.Keys == um.user.Keys;
  }

  /** Adding a user with an unused id and an unused public id, in the state
      a new user starts in, keeps the invariant. */
  lemma InsertKeepsInv(um: Manager, u: User)
    requires Inv(um)
    requires u.id !in um.user && FreshPubId(um, u.pubId)
    requires u.inbox == Fresh()
    ensures Inv(um.(user := um.user[u.id := u]))
  {
    var um' := um.(user := um.user[u.id := u]);
    forall k | k in um'.user ensures SessionOk(um', k) {
      if k != u.id { assert SessionOk(um, k); }
    }
  }

  /** The user a login leaves behind keeps its public id, or gets the fresh
      one on a first login, and has the supplied user data merged into its
      attributes; a new user starts with nothing queued and not polling and
      is sent nothing. The reply echoes the id, public id and attributes. */
  lemma LoginRecord(um: Manager, req: Request, o: Oracle)
    requires Inv(um)
    requires Enumerates(o.fanout, um.user.Keys) && Enumerates(o.listing, um.user.Keys)
    ensures var out := HandleLogin(um, req, o);
      var u := out.manager.user[req.id];
      var r := out.reply.value;
      && u.pubId == (if req.id in um.user then um.user[req.id].pubId else o.pubId)
      && u.attr == (if req.id in um.user then um.user[req.id].attr else map[]) + req.userdata
      && (req.id !in um.user ==> u.inbox == Fresh() && Delivered(out.events, req.id) == [])
      && r.id == req.id && r.pubId == u.pubId && r.userdata == u.attr && r.status == "ok"
  {
    var p := LoginSteps(um, req, o);
    if req.id in um.user {
      LoginTableKeepsInv(um, req, o);
      FanoutAt(p.before, o.fanout, p.notice, req.id);
    } else {
      UntouchedDeliversNothing(p.events, req.id);
    }
  }

  /** Every user registered before a login is sent the new-user notice
      exactly once, and keeps its attributes unless it is the one logging in. */
  lemma LoginNotifies(um: Manager, req: Request, o: Oracle)
    requires Inv(um)
    requires Enumerates(o.fanout, um.user.Keys) && Enumerates(o.listing, um.user.Keys)
    ensures var out := HandleLogin(um, req, o);
      var u := LoginUser(um, req, o);
      && (forall k :: k in um.user ==>
            QueueOf(um, k) + [NewUser(u.pubId, u.attr)] == Delivered(out.events, k) + QueueOf(out.manager, k))
      && (forall k :: k in um.user && k != req.id ==> out.manager.user[k].attr == um.user[k].attr)
  {
    var p := LoginSteps(um, req, o);
    var out := HandleLogin(um, req, o);
    LoginTableKeepsInv(um, req, o);
    forall k | k in um.user
      ensures QueueOf(um, k) + [p.notice] == Delivered(out.events, k) + QueueOf(out.manager, k)
      ensures k != req.id ==> out.manager.user[k].attr == um.user[k].attr
    {
      FanoutAt(p.before, o.fanout, p.notice, k);
      assert out.manager.user[k] == p.after[k];
    }
  }

  /** The reply's user list has one entry per user registered before the
      login, so a new user is not in it. */
  lemma LoginListExcludesNewcomer(um: Manager, req: Request, o: Oracle)
    requires Inv(um)
    requires Enumerates(o.fanout, um.user.Keys) && Enumerates(o.listing, um.user.Keys)
    requires req.id !in um.user ==> FreshPubId(um, o.pubId)
    ensures var r := HandleLogin(um, req, o).reply.value;
      && |r.userlist| == |um.user|
      && (forall k :: k in um.user ==>
            exists i :: 0 <= i < |r.userlist| && r.userlist[i].pubId == um.user[k].pubId)
      && (req.id !in um.user ==> forall i :: 0 <= i < |r.userlist| ==> r.userlist[i].pubId != o.pubId)
  {
    var p := LoginSteps(um, req, o);
    assert HandleLogin(um, req, o).reply.value.userlist == p.list;
    EnumerationLength(o.listing, um.user.Keys);
    LoginListCovers(um, req, o);
    if req.id !in um.user {
      LoginListFresh(um, req, o);
    }
  }

  /** Every user registered before a login has an entry with its public id
      in the user list. */
  lemma LoginListCovers(um: Manager, req: Request, o: Oracle)
    requires Inv(um)
    requires Enumerates(o.fanout, um.user.Keys) && Enumerates(o.listing, um.user.Keys)
    ensures var list := LoginSteps(um, req, o).list;
      forall k :: k in um.user ==> exists i :: 0 <= i < |list| && list[i].pubId == um.user[k].pubId
  {
    var p := LoginSteps(um, req, o);
    LoginBroadcastKeepsInv(um, req, o);
    forall k | k in um.user ensures exists i :: 0 <= i < |p.list| && p.list[i].pubId == um.user[k].pubId {
      var i :| 0 <= i < |o.listing| && o.listing[i] == k;
      assert p.list[i].pubId == p.after[k].pubId;
    }
  }

  /** On a first login no entry of the user list carries the fresh public id. */
  lemma LoginListFresh(um: Manager, req: Request, o: Oracle)
    requires Inv(um)
    requires Enumerates(o.fanout, um.user.Keys) && Enumerates(o.listing, um.user.Keys)
    requires req.id !in um.user && FreshPubId(um, o.pubId)
    ensures var list := LoginSteps(um, req, o).list;
      forall i :: 0 <= i < |list| ==> list[i].pubId != o.pubId
  {
    var p := LoginSteps(um, req, o);
    LoginBroadcastKeepsInv(um, req, o);
    forall i | 0 <= i < |p.list| ensures p.list[i].pubId != o.pubId {
      var k := o.listing[i];
      assert p.list[i].pubId == p.after[k].pubId == um.user[k].pubId;
    }
  }

  /** The `setattrrequest` case: set one attribute of a known user. */
  function HandleSetAttr(um: Manager, req: Request): (out: Outcome)
    requires Inv(um)
    requires req.id in um.user
    ensures Inv(out.manager)
    ensures out.manager.user.Keys == um.user.Keys && out.manager.nextChan == um.nextChan
    // exactly attr[name] = value for that user, nothing else changes
    ensures out.manager.user[req.id].attr == um.user[req.id].attr[req.attr := req.value]
    ensures out.manager.user[req.id] == um.user[req.id].(attr := out.manager.user[req.id].attr)
    ensures forall k :: k in um.user && k != req.id ==> out.manager.user[k] == um.user[k]
    ensures out.reply == Some(SetAttrReply("ok")) && out.events == [] && out.status == Running
  {
    var u := um.user[req.id];
    var um' := um.(user := um.user[req.id := u.(attr := u.attr[req.attr := req.value])]);
    assert Inv(um') by {
      forall k | k in um'.user ensures SessionOk(um', k) { assert SessionOk(um, k); }
    }
    Outcome(um', Some(SetAttrReply("ok")), [], Running)
  }

  /** `strconv.FormatBool`. */
  function FormatBool(b: bool): (s: string)
    ensures s == "true" || s == "false"
    ensures b <==> s == "true"
  {
    if b then "true" else "false"
  }

  /** The `getattrrequest` case: look an attribute up; a missing one reads
      as the empty string with status "false". */
  function HandleGetAttr(um: Manager, req: Request): (out: Outcome)
    requires Inv(um)
    requires req.id in um.user
    ensures out.manager == um && out.events == [] && out.status == Running
    ensures out.reply.Some? && out.reply.value.GetAttrReply?
    ensures req.attr in um.user[req.id].attr ==>
      out.reply.value == GetAttrReply(um.user[req.id].attr[req.attr], "true")
    ensures req.attr !in um.user[req.id].attr ==> out.reply.value == GetAttrReply("", "false")
  {
    var attr := um.user[req.id].attr;
    var value := if req.attr in attr then attr[req.attr] else "";
    Outcome(um, Some(GetAttrReply(value, FormatBool(req.attr in attr))), [], Running)
  }

  /** The `pollrequest` case: reject an unknown id; otherwise pre-empt an
      outstanding poll, hand out a new channel and flush what is queued. */
  function HandlePoll(um: Manager, id: string): (out: Outcome)
    requires Inv(um)
    ensures Inv(out.manager)
    ensures out.status == Running && out.reply.Some? && out.reply.value.PollReply?
    ensures out.manager.user.Keys == um.user.Keys
    ensures forall k :: k in um.user && k != id ==> out.manager.user[k] == um.user[k]
    // an unknown id is answered with an error and changes nothing
    ensures id !in um.user <==> out.reply.value.status == "error"
    ensures id !in um.user ==>
      out.manager == um && out.events == [] && out.reply.value == PollReply(None, Some("unknown user ID"), "error")
    ensures id in um.user ==>
      && out.reply.value == PollReply(Some(um.nextChan), None, "ok")
      && out.manager.user[id].inbox.pollChannel == Some(um.nextChan)
      && out.manager.user[id].attr == um.user[id].attr
      && out.manager.user[id].pubId == um.user[id].pubId
    // an outstanding poll is closed first
    ensures id in um.user && um.user[id].inbox.polling ==>
      |out.events| >= 1 && out.events[0] == Preempt(id, um.user[id].inbox.pollChannel.value)
    ensures id in um.user && !um.user[id].inbox.polling ==> NoPreempt(out.events)
    // queued messages are flushed at once on the new channel
    ensures id in um.user && |um.user[id].inbox.messages| > 0 ==>
      && Deliver(id, um.nextChan, um.user[id].inbox.messages) in out.events
      && !out.manager.user[id].inbox.polling
      && out.manager.user[id].inbox.messages == []
    ensures id in um.user && |um.user[id].inbox.messages| == 0 ==>
      out.manager.user[id].inbox.polling && out.manager.user[id].inbox.messages == []
    ensures id in um.user ==> QueueOf(um, id) == Delivered(out.events, id) + QueueOf(out.manager, id)
    ensures forall i :: 0 <= i < |out.events| ==> out.events[i].to == id
  {
    if id !in um.user then
      Outcome(um, Some(PollReply(None, Some("unknown user ID"), "error")), [], Running)
    else
      var u := um.user[id];
      var ch := um.nextChan;
      var (b, evs) := HandOff(id, u.inbox, ch);
      var um' := Manager(um.user[id := u.(inbox := b)], ch + 1);
      assert Inv(um') by {
        forall k | k in um'.user ensures SessionOk(um', k) {
          if k != id { assert SessionOk(um, k); }
        }
      }
      Outcome(um', Some(PollReply(Some(ch), None, "ok")), evs, Running)
  }

  /** The `broadcastrequest` case: wrap the user data with the sender's
      public id and fan it out to every user, the sender included. */
  function HandleBroadcast(um: Manager, req: Request, order: seq<string>): (out: Outcome)
    requires Inv(um)
    requires req.id in um.user
    requires Enumerates(order, um.user.Keys)
    ensures Inv(out.manager)
    ensures out.manager.user.Keys == um.user.Keys && out.manager.nextChan == um.nextChan
    ensures forall k :: k in um.user ==>
      && QueueOf(um, k) + [Chat(um.user[req.id].pubId, req.userdata)] == Delivered(out.events, k) + QueueOf(out.manager, k)
      && out.manager.user[k].attr == um.user[k].attr
    ensures NoPreempt(out.events)
    ensures out.reply == Some(BroadcastReply("ok")) && out.status == Running
  {
    var n := Chat(um.user[req.id].pubId, req.userdata);
    var (users, evs) := Fanout(um.user, order, n);
    FanoutKeepsInv(um, order, n);
    Outcome(um.(user := users), Some(BroadcastReply("ok")), evs, Running)
  }

  /** What a request needs from its caller and its environment: a known
      user for the attribute and broadcast cases, a visiting order of the
      whole table where the table is ranged over, and a public id no user
      has for a first login. */
  predicate Admissible(um: Manager, req: Request, o: Oracle) {
    && (req.kind == SetAttrRequest || req.kind == GetAttrRequest || req.kind == BroadcastRequest ==> req.id in um.user)
    && (req.kind == LoginRequest || req.kind == BroadcastRequest ==> Enumerates(o.fanout, um.user.Keys))
    && (req.kind == LoginRequest ==> Enumerates(o.listing, um.user.Keys))
    && (req.kind == LoginRequest && req.id !in um.user ==> FreshPubId(um, o.pubId))
  }

  /** One turn of `runUserManager`: dispatch on the request type. */
  function Step(um: Manager, req: Request, o: Oracle): (out: Outcome)
    requires Inv(um)
    requires Admissible(um, req, o)
    ensures Inv(out.manager)
    ensures um.user.Keys <= out.manager.user.Keys
    ensures out.status == Stopped <==> req.kind == StopRequest
    ensures out.status == Panicked(req.kind) <==>
      req.kind !in {SetAttrRequest, GetAttrRequest, LoginRequest, StopRequest, PollRequest, BroadcastRequest}
    ensures out.reply.None? <==> out.status.Panicked?
    ensures out.status != Running ==> out.manager == um && out.events == []
  {
    if req.kind == SetAttrRequest then HandleSetAttr(um, req)
    else if req.kind == GetAttrRequest then HandleGetAttr(um, req)
    else if req.kind == LoginRequest then LoginKeepsInv(um, req, o); HandleLogin(um, req, o)
    else if req.kind == StopRequest then Outcome(um, Some(StopReply("ok")), [], Stopped)
    else if req.kind == PollRequest then HandlePoll(um, req.id)
    else if req.kind == BroadcastRequest then HandleBroadcast(um, req, o.fanout)
    else Outcome(um, None, [], Panicked(req.kind))
  }

  /** Per user, a login loses and reorders nothing: a user registered
      before it has the new-user notice behind its queue, anyone else is
      owed nothing and is sent nothing. */
  lemma LoginConserves(um: Manager, req: Request, o: Oracle, k: string)
    requires Inv(um)
    requires Enumerates(o.fanout, um.user.Keys) && Enumerates(o.listing, um.user.Keys)
    ensures var out := HandleLogin(um, req, o);
      var u := LoginUser(um, req, o);
      QueueOf(um, k) + (if k in um.user then [NewUser(u.pubId, u.attr)] else [])
        == Delivered(out.events, k) + QueueOf(out.manager, k)
  {
    if k in um.user {
      LoginNotifies(um, req, o);
    } else if k == req.id {
      LoginRecord(um, req, o);
    } else {
      LoginIgnoresOthers(um, req, o, k);
    }
  }

  /** A login sends nothing to, and queues nothing for, an id that is
      neither registered nor logging in. */
  lemma LoginIgnoresOthers(um: Manager, req: Request, o: Oracle, k: string)
    requires Inv(um)
    requires Enumerates(o.fanout, um.user.Keys) && Enumerates(o.listing, um.user.Keys)
    requires k !in um.user && k != req.id
    ensures var out := HandleLogin(um, req, o);
      Delivered(out.events, k) == [] && QueueOf(out.manager, k) == []
  {
    var p := LoginSteps(um, req, o);
    assert HandleLogin(um, req, o).events == p.events;
    UntouchedDeliversNothing(p.events, k);
  }

  /** Per user, a poll loses and reorders nothing. */
  lemma PollConserves(um: Manager, id: string, k: string)
    requires Inv(um)
    ensures var out := HandlePoll(um, id);
      QueueOf(um, k) == Delivered(out.events, k) + QueueOf(out.manager, k)
  {
    var out := HandlePoll(um, id);
    if id !in um.user {
      assert out.events == [] && out.manager == um;
    } else if id != k {
      UntouchedDeliversNothing(out.events, k);
      assert QueueOf(out.manager, k) == QueueOf(um, k);
    }
  }

  /** Per user, a broadcast request loses and reorders nothing. */
  lemma BroadcastConserves(um: Manager, req: Request, order: seq<string>, k: string)
    requires Inv(um)
    requires req.id in um.user
    requires Enumerates(order, um.user.Keys)
    ensures var out := HandleBroadcast(um, req, order);
      QueueOf(um, k) + (if k in um.user then [Chat(um.user[req.id].pubId, req.userdata)] else [])
        == Delivered(out.events, k) + QueueOf(out.manager, k)
  {
    var out := HandleBroadcast(um, req, order);
    if k !in um.user {
      var n := Chat(um.user[req.id].pubId, req.userdata);
      assert out.events == Fanout(um.user, order, n).1;
      UntouchedDeliversNothing(out.events, k);
    }
  }

  /** Per user, one step loses and reorders nothing: what was queued, then
      what the step queued, is what it delivered, then what stays queued. */
  lemma StepConserves(um: Manager, req: Request, o: Oracle, k: string)
    requires Inv(um)
    requires Admissible(um, req, o)
    ensures var out := Step(um, req, o);
      QueueOf(um, k) + Enqueued(um, req, o, k) == Delivered(out.events, k) + QueueOf(out.manager, k)
  {
    if req.kind == LoginRequest {
      LoginStepConserves(um, req, o, k);
    } else if req.kind == PollRequest {
      PollStepConserves(um, req, o, k);
    } else if req.kind == BroadcastRequest {
      BroadcastStepConserves(um, req, o, k);
    } else {
      QuietStepConserves(um, req, o, k);
    }
  }

  lemma LoginStepConserves(um: Manager, req: Request, o: Oracle, k: string)
    requires Inv(um) && Admissible(um, req, o) && req.kind == LoginRequest
    ensures var out := Step(um, req, o);
      QueueOf(um, k) + Enqueued(um, req, o, k) == Delivered(out.events, k) + QueueOf(out.manager, k)
  {
    var u := LoginUser(um, req, o);
    assert Step(um, req, o) == HandleLogin(um, req, o);
    assert NoticeOf(um, req, o) == Some(NewUser(u.pubId, u.attr));
    LoginConserves(um, req, o, k);
  }

  lemma PollStepConserves(um: Manager, req: Request, o: Oracle, k: string)
    requires Inv(um) && Admissible(um, req, o) && req.kind == PollRequest
    ensures var out := Step(um, req, o);
      QueueOf(um, k) + Enqueued(um, req, o, k) == Delivered(out.events, k) + QueueOf(out.manager, k)
  {
    assert Step(um, req, o) == HandlePoll(um, req.id);
    PollConserves(um, req.id, k);
  }

  lemma BroadcastStepConserves(um: Manager, req: Request, o: Oracle, k: string)
    requires Inv(um) && Admissible(um, req, o) && req.kind == BroadcastRequest
    ensures var out := Step(um, req, o);
      QueueOf(um, k) + Enqueued(um, req, o, k) == Delivered(out.events, k) + QueueOf(out.manager, k)
  {
    assert Step(um, req, o) == HandleBroadcast(um, req, o.fanout);
    assert NoticeOf(um, req, o) == Some(Chat(um.user[req.id].pubId, req.userdata));
    BroadcastConserves(um, req, o.fanout, k);
  }

  /** The commands that queue nothing leave every queue as it was and
      deliver nothing. */
  lemma QuietStepConserves(um: Manager, req: Request, o: Oracle, k: string)
    requires Inv(um)
    requires Admissible(um, req, o)
    requires req.kind != LoginRequest && req.kind != PollRequest && req.kind != BroadcastRequest
    ensures var out := Step(um, req, o);
      QueueOf(um, k) + Enqueued(um, req, o, k) == Delivered(out.events, k) + QueueOf(out.manager, k)
  {
    assert Enqueued(um, req, o, k) == [];
    if req.kind == SetAttrRequest {
      assert Step(um, req, o) == HandleSetAttr(um, req);
    } else if req.kind == GetAttrRequest {
      assert Step(um, req, o) == HandleGetAttr(um, req);
    }
  }

  /** Reading an attribute right after setting it yields the value set. */
  lemma GetAfterSet(um: Manager, id: string, name: string, value: string)
    requires Inv(um) && id in um.user
    ensures var afterSet := Step(um, Request(SetAttrRequest, id, name, value, map[]), Oracle("", [], []));
      Step(afterSet.manager, Request(GetAttrRequest, id, name, "", map[]), Oracle("", [], [])).reply
        == Some(GetAttrReply(value, "true"))
  {
  }

  /** Polling twice without a flush in between: the second poll closes the
      channel the first one handed out, and hands out a different one. */
  lemma SecondPollPreemptsFirst(um: Manager, id: string)
    requires Inv(um)
    requires id in um.user && um.user[id].inbox.messages == []
    ensures var poll := Request(PollRequest, id, "", "", map[]);
      var first := Step(um, poll, Oracle("", [], []));
      var second := Step(first.manager, poll, Oracle("", [], []));
      && first.reply.value.userchan.Some?
      && second.reply.value.userchan.Some?
      && second.reply.value.userchan != first.reply.value.userchan
      && second.events[0] == Preempt(id, first.reply.value.userchan.value)
  {
  }
}
