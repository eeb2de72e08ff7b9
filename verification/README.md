# Long-poll session registry and chat user directories, in Dafny

This project models the session registry of the `connectionmanager` Go
repository. It also models the small user directories and the HTML escape
that its chat examples use beside the registry.

The registry is a goroutine that owns a table of sessions. Each session
has a FIFO queue of undelivered messages, a `polling` flag, and the channel
its current long-poll request waits on. The goroutine serves one command at
a time:
- connect (or login) creates a session;
- poll hands out a fresh channel, closes the channel of a poll still
  outstanding, and flushes whatever is queued;
- broadcast appends one message to every queue and flushes the sessions
  that are polling;
- stop ends the loop.

There are two generations of the registry:
- `connectionmanager/connectionmanager.go`, module `ConnectionManager`;
- the older `usermanager/usermanager.go`, module `UserManager`. It adds
  per-user attributes, attribute get/set, a public id per user, and a login
  that announces the newcomer and answers with the user list.

Both handle their sessions the same way. That shared part (`pollCheck` and
the poll hand-off) is module `Mailbox`.

Each command is modelled as a pure function `Step`. It takes the state and
one command, and returns the new state, the reply, the channel operations
performed, and whether the loop goes on:
- a send of a batch on a poll channel is the event `Deliver(to, chan, batch)`;
- a `close` is the event `Preempt(to, chan)`;
- channels are numbered by a counter in the state, so every `make` gives a
  new one.

Some choices are made by the environment, so they are parameters of `Step`:
- Go's unspecified map iteration order is a visiting order that must list
  every key once (`Base.Enumerates`);
- `uuid.New()` is a public id that no user holds.

`ConnectionManager.Run` folds `Step` over a sequence of commands.

The chat examples keep users in a pair of maps, id to user and public id to
id, with a counter for guest names. The shared parts are in module
`ChatUsers`:
- `ChatUserDirectory` is the command-serving version in
  `examples/chat/usermanager.go`;
- `ChatUserTable` is the directly called version. It is written identically
  in `examples/chat/chat.go` and `connectionmanager/examples/chat/chat.go`.

`HtmlEscape` models `escapeHTML` of the web client
(`examples/chat/webroot/chat.js`). It is four global replacements, proved
equal to a one-pass entity escape.

Files:
- `base.dfy`: options, enumeration orders, `%d` formatting;
- `mailbox.dfy`: per-session queue and poll state;
- `connection_manager.dfy`: the newer registry;
- `user_manager.dfy`: the older registry;
- `chat_users.dfy`: the shared user directory types and helpers;
- `chat_user_directory.dfy`: the command-serving directory;
- `chat_user_table.dfy`: the directly called directory;
- `html_escape.dfy`: the HTML escape.

Where the code differs from its own comments, this model follows the code.
In `usermanager.go`, a login by a user that already exists merges the new
user data into the stored record before the new-user broadcast. So that
user gets its own notice and appears in the user list, although the comment
at usermanager/usermanager.go:268 says "broadcast to everyone else".

A connection keeps its last poll channel after a flush: `pollCheck` never
resets it to nil, and neither does the model.

## Model

| member | source | states |
|---|---|---|
| `Mailbox.Fresh` | connectionmanager/connectionmanager.go:127-132 | a new session has no channel, is not polling and has nothing queued |
| `Mailbox.PollCheck` | connectionmanager/connectionmanager.go:99-123 | it fires exactly when the session polls with a non-empty queue. It then sends the whole queue as one batch on the session's channel, empties the queue and clears `polling`; otherwise the session is unchanged. The old queue equals what was delivered followed by what remains, and afterwards the session is never polling with messages queued |
| `Mailbox.HandOff` | connectionmanager/connectionmanager.go:270-292 | a poll closes the outstanding channel first, and only when the session was polling. It installs the new channel; queued messages go out on it at once and leave the session not polling and empty. An empty queue leaves the session polling. Nothing is lost, and every event is for this session |
| `ConnectionManager.New` | connectionmanager/connectionmanager.go:159-166 | the registry starts with no connections and satisfies the invariant |
| `ConnectionManager.NewConnection` | connectionmanager/connectionmanager.go:126-135 | a new connection carries its id, has no channel, is not polling and has an empty queue |
| `ConnectionManager.HandleConnect` | connectionmanager/connectionmanager.go:217-239 | connect adds the id if absent. An existing connection keeps its queue and polling state, so the state is unchanged; a new one is `NewConnection`. No other connection changes, and the reply is a `ConnectResponse` for the id with no error |
| `ConnectionManager.HandlePoll` | connectionmanager/connectionmanager.go:256-293 | an unknown id gets an error reply and changes nothing, and an error comes only for an unknown id. A known id gets a channel never handed out before; a poll still outstanding is closed first. Queued messages are flushed at once on the new channel; the session's queue equals what was delivered followed by what remains; other connections are untouched |
| `ConnectionManager.Fanout` | connectionmanager/connectionmanager.go:206-214 | the broadcast loop keeps the set of connections, closes no channel, and sends only to connections it visits |
| `ConnectionManager.FanoutAt` | connectionmanager/connectionmanager.go:206-214 | a visited connection gets exactly one copy of the message behind its queue. If it was polling, its whole queue plus the message is sent at once; otherwise the message stays queued and nothing is sent to it. Afterwards it is not polling, and its id and channel are unchanged. An unvisited connection is untouched |
| `ConnectionManager.HandleBroadcast` | connectionmanager/connectionmanager.go:300-315 | every connection, the sender's included, has the request re-typed as `Broadcast` appended to what it is owed: its old queue plus that message equals what was delivered plus its new queue. No channel is closed, the invariant holds, and the reply is a `BroadcastResponse` |
| `ConnectionManager.Step` | connectionmanager/connectionmanager.go:318-349 | after every command no connection is polling with messages queued, and connections are never removed. Stop ends the loop; an unknown type panics; exactly the panicking commands get no reply; and a stop or panic changes nothing |
| `ConnectionManager.StepConserves` | connectionmanager/connectionmanager.go:205-214 | per connection, one command loses, duplicates and reorders nothing: the old queue plus what the command queued equals what was delivered plus the new queue |
| `ConnectionManager.SecondPollPreemptsFirst` | connectionmanager/connectionmanager.go:270-279 | two polls in a row: the second closes the channel the first handed out, and it hands out a different channel |
| `ConnectionManager.ConnectIdempotent` | connectionmanager/connectionmanager.go:221-229 | connecting the same id twice leaves the registry as the first connect left it |
| `ConnectionManager.Run` | connectionmanager/connectionmanager.go:318-349 | the command loop keeps the invariant over any admissible sequence of commands and never removes a connection |
| `ConnectionManager.RunConserves` | connectionmanager/connectionmanager.go:98-123 | over a whole run, per connection, the initial queue followed by every broadcast queued for it equals everything delivered to it followed by its final queue, in order |
| `ConnectionManager.BroadcastReachesEverySession` | connectionmanager/connectionmanager.go:300-305 | a connection present when a run starts has every broadcast of the run queued for it, in processing order |
| `UserManager.New` | usermanager/usermanager.go:145-152 | the registry starts with no users and satisfies the invariant |
| `UserManager.NewUserRecord` | usermanager/usermanager.go:110-121 | a new user has the given id and public id, empty attributes, no channel, is not polling and has nothing queued |
| `UserManager.PollCheckUser` | usermanager/usermanager.go:77-107 | the same deliver-everything-then-clear flush as `Mailbox.PollCheck`, gated on polling and a non-empty queue. It leaves the attributes and both ids alone |
| `UserManager.Fanout` | usermanager/usermanager.go:191-199 | the broadcast loop keeps the set of users, closes no channel, and sends only to users it visits |
| `UserManager.FanoutAt` | usermanager/usermanager.go:191-199 | a visited user gets exactly one copy of the notice behind its queue, flushed at once if it was polling. Its attributes, ids and channel are unchanged; an unvisited user is untouched |
| `UserManager.FanoutKeepsInv` | usermanager/usermanager.go:191-199 | broadcasting to all users keeps the invariant, public ids included. Per user, the old queue plus the notice equals what was delivered plus the new queue, and attributes and public ids are unchanged |
| `UserManager.UserList` | usermanager/usermanager.go:155-169 | entry i of the list shows the public id and attributes of the i-th user visited, and nothing else |
| `UserManager.UserListExact` | usermanager/usermanager.go:155-169 | the list has one entry per registered user: every user's public id and attributes appear, and every entry is some user's |
| `UserManager.LoginUser` | usermanager/usermanager.go:254-267 | the record a login works on is the stored user with the user data merged in, or, on a first login, a `newUser` record with the fresh public id whose attributes are the user data |
| `UserManager.HandleLogin` | usermanager/usermanager.go:250-293 | login registers the id and drops no user, makes no channel and closes none, replies with a `LoginReply`, and the loop goes on |
| `UserManager.LoginKeys` | usermanager/usermanager.go:254-279 | login adds exactly the id logging in to the table |
| `UserManager.LoginKeepsInv` | usermanager/usermanager.go:250-293 | login keeps the invariant, including distinct public ids, provided that a first login draws a public id no user holds |
| `UserManager.LoginRecord` | usermanager/usermanager.go:250-293 | after login, the user has its old public id, or the fresh one on a first login. Its attributes are the old ones, or empty ones, with the user data merged over them. A new user starts with nothing queued and not polling, and is sent nothing. The reply echoes the id, the public id and the attributes with status "ok" |
| `UserManager.LoginNotifies` | usermanager/usermanager.go:269-274 | every user registered before the login gets the new-user notice (the newcomer's public id and attributes) exactly once behind its queue. Every other user keeps its attributes |
| `UserManager.LoginListExcludesNewcomer` | usermanager/usermanager.go:276-280 | the reply's list has one entry per user registered before the login: it is as long as the table was, and every such user's public id appears in it. On a first login no entry carries the newcomer's public id, because the list is built before the insert |
| `UserManager.HandleSetAttr` | usermanager/usermanager.go:217-231 | exactly `attr[name] = value` for the named user; nothing else in the table changes; the reply is status "ok" |
| `UserManager.FormatBool` | usermanager/usermanager.go:246 | the result is "true" exactly when the flag is true, and "false" otherwise |
| `UserManager.HandleGetAttr` | usermanager/usermanager.go:233-248 | a present attribute reads as its value with status "true"; a missing one reads as "" with status "false"; the state is unchanged |
| `UserManager.HandlePoll` | usermanager/usermanager.go:305-340 | an unknown id gets status "error" with message "unknown user ID" and changes nothing; status "error" comes only for an unknown id. For a known id, an outstanding poll is closed first and a new channel is handed out; queued notices are flushed at once; other users are untouched; nothing is lost |
| `UserManager.HandleBroadcast` | usermanager/usermanager.go:342-362 | every user, the sender included, gets a notice carrying the sender's public id as `fromId` and the user data. It is appended behind that user's queue, attributes are untouched, and the reply is status "ok" |
| `UserManager.Step` | usermanager/usermanager.go:202-366 | after every command the invariant holds: no user is polling with notices queued, and public ids are distinct. Users are never removed. Stop ends the loop; an unknown type panics without a reply; a stop or panic changes nothing |
| `UserManager.StepConserves` | usermanager/usermanager.go:190-199 | per user, one command loses, duplicates and reorders nothing: the old queue plus what the command queued equals what was delivered plus the new queue |
| `UserManager.GetAfterSet` | usermanager/usermanager.go:217-248 | reading an attribute right after setting it yields the value set, with status "true" |
| `UserManager.SecondPollPreemptsFirst` | usermanager/usermanager.go:320-329 | two polls in a row: the second closes the channel the first handed out, and it hands out a different channel |
| `Base.FormatInt` | examples/chat/usermanager.go:53 | `%d` renders a negative number with a leading "-" and nothing else with one; the digits after the sign read back as the magnitude |
| `Base.FormatIntInjective` | examples/chat/usermanager.go:53 | different numbers render as different strings |
| `ChatUsers.Empty` | connectionmanager/examples/chat/chat.go:53-60 | a new directory has both maps empty and guest counter 1, and is consistent |
| `ChatUsers.GuestName` | examples/chat/usermanager.go:53 | a guest name is "Guest" followed by the counter in decimal: a "-" exactly for a negative counter, then digits that read back as its magnitude |
| `ChatUsers.NextGuestName` | examples/chat/usermanager.go:52-57 | drawing a guest name advances the counter by one and leaves both maps alone |
| `ChatUsers.GuestNameInjective` | connectionmanager/examples/chat/chat.go:63-68 | different counter values give different guest names |
| `ChatUsers.GuestNamesNeverRepeat` | examples/chat/chat.go:56-61 | a guest name drawn after the counter has moved on differs from every earlier one |
| `ChatUsers.Insert` | examples/chat/usermanager.go:83-84 | registering a user maps its id to it and its public id to its id, adding exactly those keys |
| `ChatUsers.InsertKeepsConsistent` | examples/chat/chat.go:79-81 | registering a user with an unused id and public id keeps the two maps consistent, and every earlier user and public id maps as before |
| `ChatUserDirectory.NewUserManager` | examples/chat/usermanager.go:170-179 | a new directory has empty maps, guest counter 1, and is consistent |
| `ChatUserDirectory.AddUser` | examples/chat/usermanager.go:60-87 | a taken id is an error "user already exists: id", and the maps and counter are unchanged. An error comes only for a taken id. Otherwise the reply is the stored user: a given name is kept, an empty one becomes the next guest name and advances the counter, and the user is found under its id and under its public id |
| `ChatUserDirectory.GetUserById` | examples/chat/usermanager.go:90-106 | a known id yields its user; an unknown one yields the error "unknown user ID: id" |
| `ChatUserDirectory.GetUserByPubIdAsWritten` | examples/chat/usermanager.go:109-132 | the lookup as written: an unmapped public id yields "unknown user pubID: " with nothing after it; a mapped one behaves as the corrected lookup |
| `ChatUserDirectory.PubIdErrorAsWrittenLosesPid` | examples/chat/usermanager.go:114-119 | as written, every unmapped public id gets the same message, so the message cannot say which one was asked for |
| `ChatUserDirectory.GetUserByPubId` | examples/chat/usermanager.go:109-132 | an unmapped public id is an error naming it. A public id mapped to a stored user yields that user. A public id mapped to an id with no user is the error "unknown user ID id via pubID pid" |
| `ChatUserDirectory.PubIdErrorNamesPid` | examples/chat/usermanager.go:114-119 | with the correction, different unmapped public ids get different messages |
| `ChatUserDirectory.LookupsAgree` | examples/chat/usermanager.go:109-132 | in a consistent directory, a user's public id finds the same result as its id. A public id finds a user exactly when it is mapped, and the user found holds that public id |
| `ChatUserDirectory.AddThenLookup` | examples/chat/chat_test.go:23-40 | right after a successful add, lookup by id and lookup by public id both return the added user, with the expected name; the directory stays consistent |
| `ChatUserDirectory.EarlierUsersStay` | examples/chat/chat_test.go:50-82 | an add leaves every earlier user retrievable, unchanged, by id and by public id |
| `ChatUserDirectory.Step` | examples/chat/usermanager.go:139-157 | the directory stays consistent. Stop replies with an empty response and ends the loop. Lookups and adds reply, and a lookup finds a user exactly when its id or public id is registered; the public-id lookup is the one as written, so an unmapped public id gets the message without it. Any other command type, remove included, gets no reply and changes nothing. Only an add changes the directory, and only by adding |
| `ChatUserDirectory.ThreeUsersScenario` | examples/chat/chat_test.go:43-83 | the package test's sequence: after adding "alpha", "bravo" and "charlie", each is found by id with its name and by public id as the same user, at every point the test checks |
| `ChatUserTable.NewUserManager` | examples/chat/chat.go:45-53 | a new table has empty maps, guest counter 1, and is consistent |
| `ChatUserTable.AddUser` | examples/chat/chat.go:66-85 | a guest number is used up exactly when the name is empty, whether or not the id is known. A known id returns the stored user with both maps unchanged. An unknown id is stored with the public id and the given or guest name, under both keys |
| `ChatUserTable.GetUserById` | examples/chat/chat.go:88-91 | a user is found exactly when its id is a key, and it is the stored one |
| `ChatUserTable.GetUserByPubId` | examples/chat/chat.go:94-102 | an unmapped public id finds nothing; a mapped one finds what its id finds |
| `ChatUserTable.AddExistingKeepsUser` | connectionmanager/examples/chat/chat.go:73-92 | adding a known id again returns it as stored, with no rename, no new public id and no new mapping. The counter advances exactly when the name is empty; the table stays consistent |
| `ChatUserTable.AddNewFindable` | connectionmanager/examples/chat/chat.go:80-109 | a new user is found by its public id and by its id, the table stays consistent, and every earlier user is still found under both keys |
| `ChatUserTable.LookupsAgree` | connectionmanager/examples/chat/chat.go:101-109 | in a consistent table, a public id finds a user exactly when it is mapped, and that user holds it; a user's public id finds that user |
| `HtmlEscape.ReplaceAll` | examples/chat/webroot/chat.js:23 | replacing every `c` by a replacement without `c` leaves no `c`. The result is never shorter when the replacement is non-empty, and text without `c` is unchanged |
| `HtmlEscape.PassesOnChar` | examples/chat/webroot/chat.js:23 | because `&` is replaced first, the four passes map each character to exactly its entity, or to itself, with no double escaping |
| `HtmlEscape.EscapeHTMLAppend` | examples/chat/webroot/chat.js:23 | escaping a concatenation is the concatenation of the escapes |
| `HtmlEscape.EscapeHTMLIsEscape` | examples/chat/webroot/chat.js:22-24 | the client's four chained replacements equal the one-pass escape that maps `&`, `<`, `>` and `"` to their entities |
| `HtmlEscape.NoMarkupLeft` | examples/chat/webroot/chat.js:22-24 | the output contains no `<`, `>` or `"`; `<` becomes `&lt;`, not `&amp;lt;` |
| `HtmlEscape.EscapeHTMLAmpersands` | examples/chat/webroot/chat.js:23 | every `&` of the output begins `&amp;`, `&lt;`, `&gt;` or `&quot;` |
| `HtmlEscape.PlainPassesThrough` | examples/chat/webroot/chat.js:23 | text without the four special characters is output unchanged. Together with `EscapeHTMLAppend`, other characters pass through in order |
| `HtmlEscape.EscapeHTMLLength` | examples/chat/webroot/chat.js:23 | the output is never shorter than the input, and it is exactly as long when there is nothing to escape |
| `HtmlEscape.EscapeHTMLRoundTrip` | examples/chat/webroot/chat.js:22-24 | reading the entities back gives the original text, so different texts never escape alike |

## Left out

- Goroutines, the request channels, their buffer sizes of 50, and the blocking of `SendMessage`/`SendRequest` are left out. Each registry is a sequential interpreter of one command at a time, and channel sends and closes are events. So a send to a poller that has gone away, which would block the Go loop, is not modelled.
- `SetActive`, the `active` flag, `SendMessage`, `SendRequest`, the `removeConnection`/`removeUser` stubs (bodies are TODO) and the commented-out `buildConnectionListResponse` are left out, since they are goroutine start-up, the client side of the channel protocol, or empty.
- The JSON marshalling of a batch in usermanager.go's `pollCheck` is left out. A batch is the sequence of queued notices, so the marshal-error panic is not modelled.
- UserManager.LoginRecord: attributes are snapshots. In Go, the new-user notice, the login reply and the user list share the user's attribute map, so a later set-attribute is visible through them until they are marshalled. The model records the values as they were at the login.
- UserManager.Step: a set-attribute, get-attribute or broadcast request for an unknown id dereferences nil in Go and panics. The model makes a known id a precondition (`Admissible`) instead.
- UserManager.Step: a request missing one of the fields its case reads fails a type assertion and panics. The model gives every request every field; a nil user data map is the empty map.
- The `idMap` field of usermanager.go's `UserManager` is never initialised or used, and is not modelled.
- `uuid.New()` is a parameter. A new user's public id is required to be held by no user, which is all the model relies on.
- Go's map iteration order is a parameter: any order that visits every key once.
- The integer width of `nextGuestNumber` is not modelled, so wrap-around after 2^63 guests is not modelled.
- ChatUserDirectory.Step: the caller-side wrappers (`GetUserByID`, `GetUserByPubID`, `AddUser`, `Stop`, `getUserOrError`) are not modelled separately. They only send one command and return its response, and for a command type with no case they would block forever; the model states only that no reply is sent.
- In both chat.go files, the HTTP handlers, the file server, the JSON response building and `main` are left out as I/O glue.
- chat/chat.go is not part of this model: it does not compile, and the rest of it is HTTP glue.
- examples/chat/rabbits/rabbits.go, a network load-testing client, is not part of this model.
- In chat.js, everything except `escapeHTML` (the DOM and ajax code, and `randomID`, which uses `Math.random`) is left out. A Dafny `char` is one Unicode scalar value, while a JavaScript string is a sequence of UTF-16 code units. So strings holding lone surrogates are not modelled, and lengths count characters, not JavaScript's `.length`.

## Findings

| source | as written | input that shows it | evidently intended | confidence | as-written member | corrected member |
|---|---|---|---|---|---|---|
| examples/chat/usermanager.go:114-119 | when the public id is not in `idMap`, the error formats `id`, which the failed lookup has left at "" | any directory and two unmapped public ids "p" and "q": both give exactly "unknown user pubID: " | format the public id asked about, "unknown user pubID: p" | not executed | `ChatUserDirectory.PubIdErrorAsWrittenLosesPid` | `ChatUserDirectory.PubIdErrorNamesPid` |

`ChatUserDirectory.Step` serves the lookup as written. The corrected lookup `ChatUserDirectory.GetUserByPubId` agrees with it on every mapped public id and differs only in the message for an unmapped one.
