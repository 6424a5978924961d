# A verified model of the messaging service

The service is a central server and its clients. The server keeps everything in a directory
tree: one directory per user (`pass.txt`, and `login` while logged in) and one per group
(`name.txt`, an empty file per subscriber, and `MSG` with one numbered directory per message).
Commands that arrive as datagrams are served one at a time by the main loop. Each command that
arrives over a connection is served by a forked child, so any number of `post` and `retrieve`
children run between and beside each other and the serial commands, without a lock.

The main theorem is `EndToEnd.PostedIsRetrieved`, with `RetrievePosted` and `HearAndRetrieve` as
its forms on the programs. A post has been answered with message id *m*. A client that later asks
for the messages from *mid* on is sure to be shown *m*, with author, text and file as they were
sent and in its place, exactly if no message from *mid* up to *m* can end the child that serves
it; so always, if it asks for *m* itself. That condition (`Delivery.SafeBefore`) speaks only of how
far the owners of those messages have got when the `retrieve` begins. "Sure" means: for every
interleaving with posts, other retrievals and the commands of the main process, every order in
which directories are enumerated, every listing a scan may give, every state of a file that is
being written, and every way the bytes are cut into reads. `Certainty.SureIff` is the same for any
message, answered or not; its other direction constructs, from any state, a run in which the
message is not shown as it was sent. The client is told *m* itself exactly when its one `read` of the reply
returned all of the id. It rests on five parts.

1. **The message log.** `PostProtocol` is a transition system with a program counter per `post`
   child: check the group, open `MSG`, finish a scan that may have missed directories made
   meanwhile, `mkdir`, author, text, the byte that announces a file, the file, the reply. Each file
   is created empty, written in any number of pieces, and closed. The main process serves a command
   in one step, but makes a new group entry by entry, the name in pieces too, with children between
   any two steps. `PostSafety` proves one invariant step by step, `PostTheorems` draws the
   consequences: unique MIDs, a gap-free directory, refinement of an append-only log, when a message
   is complete, and lasting delivery. `Reachable` gives runs that reach any log and any scan of it, and shows that
   a post that holds an id can always be finished.
2. **The other processes.** `Host.Machine` is that system as one process sees it: between any two
   of its own steps, and while it reads a directory, any run may take place. `RetrieveRecord` and
   `RetrieveServer` are the server's `retrieve` on this machine, `ListServer` the three lists, and
   `MainProcess` the dispatch of all datagrams, each as a run of the transition system. `Delivery`
   says what a client makes of a `retrieve`, and `Certainty` what may go wrong with it.
3. **The formats.** `Wire`, `Retrieve`, `Tokenizer`, `ClientPost`, `GroupLists` and `Requests`
   hold the printers and parsers of both programs. `ByteStream.Socket.Read` returns any positive
   number of available bytes, so each parser is proved for every segmentation; the client's parser
   of `retrieve` is proved on every stream (`Retrieve.ClientReads`), so also on one that is cut off.
   `Tokenizer` cuts words in place in an array.
4. **Lists and listings.** `StrList` is the linked list whose nodes cache their suffix lengths,
   on the heap; `Sorting` and `CText` show that its `strcmp` order is the order of the ids.
5. **The serial commands.** `ServerCommands` runs each on the tree of `Tree.FileSystem` and
   proves that it does what the abstract machine of `Server` does (`ServerTree` says how a tree
   represents a state). `Outcomes` says by the bytes of each reply what has changed and what has
   not, and `History` that every reply follows from the commands and replies before it, without a
   look at the state; `Serving` carries this over to runs with children. `Session` adds the
   client's side of them, what the user is told, and proves that client and server agree about who
   is logged in.

`Formats` spells out the bytes of all requests and replies, and the words that may stand in them.
`Windows` is about the 20 messages of one `retrieve`; `ListMeaning` joins the group lists to the
message log, and to the client.

## Where the code departs from what its comments promise

- `subscribe` tests the directory of all groups where it means that of the group
  (`src/server/commands.c:450`). A missing group, and a request for a new one when there are 99,
  reach `fscanf` with a null stream, which ends the main process; both are the outcome `Crash`, and
  `Server.SubscribeCrashes` says exactly when. From then on no datagram is answered
  (`Server.DownStaysDown`), so a client can log out iff no command of its session was fatal
  (`Session.LogOutIff`).
- `post` looks for the group's directory only, and `subscribe` makes that before `MSG`: a post that
  comes between the two counts no message and fails at `mkdir`, although nobody else has claimed
  its id (`PostTheorems.MkdirFailsIff`, `Reachable.FirstPostRefused`).
- `ulist` passes a null stream to `fscanf` if the group has no `name.txt` yet
  (`ListServer.NamelessIff`); the client then reports that the group does not exist. Of a name that
  is being written it may see the first part, and if that is empty, `fscanf` stores nothing and the
  reply has what was in the buffer before.
- The client takes the reply to `post` with one `read` (`src/user/connection.c:224`). Fewer than 8
  bytes give a shorter id, an empty one, or a null pointer (`ClientPost.Told`,
  `EndToEnd.SixBytesTold`).
- `groups` allocates one byte too few when there is no group, and `my_groups` then writes into an
  allocation of size 0: `GroupLists.RglFits` and `GroupLists.RgmFits` are equivalences.
- `my_groups` answers "RGS E_USR" for a user who is unknown or not logged in
  (`src/server/commands.c:559`, `src/server/commands.c:568`); the model does so too.
- `retrieve` lists `MSG` without a lock. If that scan misses a message and sees a later one, the
  announced count may be wrong: `Windows.CountsRightIff` gives the exact condition in terms of
  what was there when the scan began and ended, and `Certainty.CountGoesWrong` runs in which it
  goes wrong. The client then shows records too few, or empty ones beyond the last.
- A claimed message is listed before it is complete: `PostTheorems.CompleteIff` says when it is as
  it was sent. Met earlier, it ends the child by a null stream or an empty list, or is printed
  in part: without its file, or with the first part of text or file, or with up to five bytes that
  happened to be in the buffer in place of its author, exactly as `RetrieveRecord.WriteRecord` says.
- A client whose answer is cut off behind a header waits for the text for ever, unless that is
  empty; otherwise it shows an empty record for each that is missing (`Retrieve.ClientReads`,
  `Certainty.Hollow`).
- The client stays logged in as before when it logs in as somebody else, but the server has then
  logged in both (`Session.AloneUnless`).
- `logout` on the client goes on after an unexpected answer, because `EXPECT` only prints
  (`src/common/debug.h:26-36`). `Session.LogOutAccepted` shows
  that a server that is still there never gives one.
- The server does not terminate a received datagram (`src/server/connection.c:58-65`).
  `MainProcess.Dispatch` shows that the bytes of earlier datagrams never reach a word.

## How to read the model

- A byte is a `char`, and a C string a `string` without NUL. Numbers are unbounded; sizes and
  counts that pass through `int` are bounded by `INT_MAX` where they are printed.
- A path is a sequence of names, and the tree a map from paths to entries, so building path
  strings is not part of the model. A `sll_link_t *` argument becomes a value and a new head.
- The assumptions about the environment are those of POSIX (IEEE Std 1003.1): `mkdir` is atomic
  and fails on an existing name, `readdir` yields every entry present throughout the scan and may
  or may not yield one made meanwhile, what is written to a file is seen by others in any number
  of pieces but in order, and a read or write makes progress.
- A conjunction of large parts is stated by a quantifier over the names of its parts
  (`ServerTree.Represents`, `PostProtocol.PostsOk`, `RetrieveServer.TraceOk`), so that a proof looks
  only into the part it needs.
- `Host.Machine.Others` stands for all other processes. Its contract allows every state that some
  run of `PostProtocol` reaches (only children run beside the main process while it serves a
  command), and is all its callers know; its body is the run without steps. The same holds of
  `Host.Machine.ReadDir`, whose outcome is any that `Host.Scanned` allows.
- A null stream, or an empty list that is followed, ends the process. What a child has sent until
  then is still in its contract.
- `PostProtocol.Next` gives the serial commands by their effect on the tree
  (`Represents` and `AreaKept`); each method of `ServerCommands.DirectoryServer` proves just that,
  and `MainProcess.CommandIsRun` makes a run of it.

## Model

| member | source | states |
|---|---|---|
| `CText.AtoiDec` | src/server/commands.c:885 | `atoi` undoes every decimal the programs print (`%d`, `%ld`, `%02d`, `%04ld`) |
| `CText.StrcmpTotalOrder` | src/server/strlinkedlist.c:42-57 | `strcmp` is an ordering by which ordered insertion can sort |
| `CText.StrcmpNumeric` | src/server/commands.c:884-887 | on digit strings of one length `strcmp` is the order, and the equality, of the numbers |
| `CText.DecOrder` | src/server/commands.c:774-775 | ids printed with a minimum width compare as numbers as long as they fit it, and then have exactly that width |
| `CText.DecOrderBreaks` | src/server/commands.c:774-775 | the concrete pair at which it stops: 10000 sorts before 9999 |
| `StrList.Size` | src/server/strlinkedlist.c:77-80 | the cached size of the first node is the length of the list |
| `StrList.Push` | src/server/strlinkedlist.c:60-74 | the new node heads the list; every node still caches the length of its own suffix |
| `StrList.Append` | src/server/strlinkedlist.c:22-39 | in place: the string is last, and every cached size on the way is right again |
| `StrList.AppendOrd` | src/server/strlinkedlist.c:42-57 | in place, for any ordering: the contents become the ordered insertion, all cached sizes right |
| `Sorting.InsertOrdSorted` | src/server/strlinkedlist.c:42-57 | ordered insertion into a sorted list keeps it sorted and adds exactly one occurrence |
| `Sorting.InsertAllSorts` | src/server/file_management.c:137-144 | inserting any sequence of names one by one gives a sorted permutation of it |
| `Sorting.ArrivalOrderIrrelevant` | src/server/file_management.c:137-144 | the list does not depend on the order in which `readdir` yields the names |
| `Sorting.SortedUnique` | src/server/file_management.c:129-149 | two sorted lists with the same elements are the same list |
| `Sorting.IdsCount` | src/server/commands.c:773-774 | a directory that holds exactly the entries 1..n has n entries: counting gives the largest id |
| `Sorting.NumericListing` | src/server/commands.c:872-885 | any sorted list of the entries 1..n is 1, 2, .., n in this order, and `atoi` of its i-th name is i+1 |
| `Tree.ListDirsOrd` | src/server/file_management.c:138-147 | for every order in which `readdir` yields them: a heap list of exactly the visible subdirectories among the entries, sorted |
| `Tree.ListDirs` | src/server/file_management.c:165-174 | for every order in which `readdir` yields them: a heap list of exactly the visible subdirectories among the entries |
| `Tree.ListFilesOf` | src/server/file_management.c:255-263 | for every order in which `readdir` yields them: a heap list of exactly the plain files among the entries |
| `Tree.FileSystem.ListSubdirectories` | src/server/file_management.c:156-176 | for every enumeration order: a heap list of exactly the visible subdirectories |
| `Tree.FileSystem.ListFiles` | src/server/file_management.c:246-265 | for every enumeration order: a heap list of exactly the plain files |
| `Tree.FileSystem.DeleteDirectory` | src/server/file_management.c:74-113 | the recursion removes exactly the subtree; it succeeds iff the path is a directory with no hidden name below it |
| `ByteStream.WordThen` | src/common/util.c:53-61 | reading a word stops at its delimiter and leaves exactly what follows it |
| `ByteStream.GetWordFd` | src/common/util.c:53-61 | byte by byte: the word is stored with a NUL inside its buffer, and one delimiter is consumed |
| `ByteStream.ReadFd` | src/common/util.c:63-71 | however the reads are cut: exactly the next `size` bytes, in order, and it terminates |
| `ByteStream.SkipFd` | src/common/util.c:67-69 | exactly `size` bytes are dropped |
| `ByteStream.WriteAll` | src/user/connection.c:217-219 | however the writes are cut: exactly the first `size` bytes are sent |
| `Tokenizer.GetWord` | src/common/util.c:22-47 | for every buffer: where the NUL goes, where the pointer goes, and that no other byte changes |
| `Tokenizer.CutStep` | src/common/util.c:22-47 | cutting one more word off a line leaves every word cut before it a C string at its place |
| `Tokenizer.NextWord` | src/common/util.c:22-47 | repeated calls return the words of a line in order, whatever follows the line in the buffer |
| `Tokenizer.GetQuote` | src/common/util.c:76-93 | for every buffer, the quote closed or not: where the NUL goes, where the pointer goes, and that no other byte changes |
| `Tokenizer.ClosedQuote` | src/common/util.c:76-93 | a closed quote becomes a C string in place, with both its marks |
| `Wire.PstHeadRoundTrip` | src/server/commands.c:737-756 | parsing a printed PST gives back uid, gid and text and stops right after the text |
| `Wire.PstTailRoundTrip` | src/server/commands.c:792-817 | the byte after the text tells a file from the end; name and data come back unchanged |
| `Wire.PostHead` | src/server/commands.c:737-756 | the reads, for every segmentation: uid, gid and text as sent, and the tail unread |
| `Wire.PostFile` | src/server/commands.c:794-814 | the reads after the text, for every segmentation: a file iff one was sent, byte for byte |
| `ClientPost.FileName` | src/user/commands.c:532 | the word after the quote is the typed file name |
| `ClientPost.SendPost` | src/user/commands.c:519-557 | typed text and file name become the PST of what the user means; nothing is sent iff the file cannot be opened |
| `ClientPost.ReadPostReply` | src/user/connection.c:224-226 | the client's one `read` of the reply and its two words: what it takes for the status, for every number of bytes the read may return |
| `ClientPost.ToldIff` | src/user/commands.c:564-573 | that status is the word the server sent iff the read returned all of the word |
| `Messages.StoredParts` | src/server/commands.c:898-946 | opening the parts of a stored message finds its author, text, and its one file or none |
| `Windows.WindowsCover` | src/server/commands.c:881-887 | windows from `mid`, `mid`+20, .. deliver the whole log once, in order |
| `Windows.CountsRightIff` | src/server/commands.c:872-887 | for a scan that begins with 1..m and ends with 1..n, the count is right whatever it lists iff at most one message came meanwhile or the window lies where a gap cannot matter; m, n and the window decide it |
| `Windows.GapFreeCount` | src/server/commands.c:881-887 | for the listing 1..n the count is right and the records are exactly those of the window |
| `Windows.FullWindowIsSafe` | src/server/commands.c:872-887 | a non-atomic listing still gives a full window that ended before the scan began |
| `Retrieve.ReadFile` | src/user/commands.c:645-690 | on every stream: the client tells "/ file" from the next id and from the end, and reads the file's bytes, unless a word is too long or the bytes do not come |
| `Retrieve.ReadRecord` | src/user/commands.c:620-690 | on every stream: one turn of the client's loop, or where it overruns a buffer or waits for ever |
| `Retrieve.ReadAnswer` | src/user/commands.c:604-705 | on every stream and for every segmentation: what the client shows, even if the stream is cut off or is no answer at all |
| `Retrieve.TurnThen` | src/user/commands.c:620-690 | one turn recovers one printed record, whatever follows it, and stops at the next id |
| `Retrieve.ReadsRecords` | src/user/commands.c:613-698 | after the count, all records that were sent are shown first, then what the client makes of the rest of the stream |
| `Retrieve.ReadsAnswer` | src/user/commands.c:604-705 | of every complete reply: as many records as were announced, empty ones past the last, and everything has been read |
| `RetrieveRecord.BodyThen` | src/server/commands.c:915-966 | a record's bytes do not depend on what is printed after them |
| `RetrieveRecord.CopyFile` | src/server/commands.c:951-957 | the data goes out whole although each `fread` may fill a buffer only in part |
| `RetrieveRecord.FileHeader` | src/server/commands.c:943-949 | the size summed up by hand is the length of the buffer, and with the data it is the file part of a record |
| `RetrieveRecord.PartsThere` | src/server/commands.c:907-932 | which parts of a message `retrieve` finds, and how much is in them, exactly by how far the post that owns it has got |
| `RetrieveRecord.WriteRecord` | src/server/commands.c:885-966 | beside all other processes, with files that are created empty and filled bit by bit: whether the child survives, and what it prints of the post, exactly by the stages at which author, text, FILE, its list and its file were opened and measured |
| `RetrieveServer.Turn` | src/server/commands.c:884-887 | `continue` below `mid`, `break` from `mid` + 20 on, and in between one visit of the message |
| `RetrieveServer.ListMessages` | src/server/commands.c:872-874 | the sorted listing of MSG while others post: ascending ids, at least those at its opening, at most those at its closing |
| `RetrieveServer.WriteWindow` | src/server/commands.c:884-972 | on any such listing, gaps included, and beside all other processes: the ids of the window are visited once each, in order and one after the other, and none but the last can be fatal |
| `RetrieveServer.ParseRtv` | src/server/commands.c:845-857 | the three words of any request that fits their buffers, and whether they pass the checks |
| `RetrieveServer.ServerRetrieve` | src/server/commands.c:859-983 | refused iff there is no group; else a scan and visits as above, and the bytes sent are what they give; the child ends early iff the last visit was fatal |
| `Server.SubscribeCrashes` | src/server/commands.c:446-461 | the error replies of `subscribe` the code does not reach: it uses a null stream iff the group is missing, or a new one is asked for and there are 99 |
| `Server.NewIdsIncrease` | src/server/commands.c:417-442 | the ids replied for new groups increase over every run, so no two groups ever get one id |
| `Server.DownStaysDown` | src/server/commands.c:446-461 | after the main process has ended, no command of any sequence is answered or changes anything |
| `Server.SameKeys` | src/server/commands.c:382-538 | every other command leaves the set of groups as it is |
| `Server.ExecKeepsInv` | src/server/commands.c:138-538 | every command keeps logged-in users and subscribers registered, and group ids exactly 01..n with n <= 99 |
| `Server.RunKeepsInv` | src/server/server.c:181-188 | so does every sequence of commands |
| `Server.ReregisterStartsClean` | src/server/commands.c:196-226 | after unregistering, the same UID starts with no login and no subscription, and nobody else has lost anything |
| `ServerTree.AddUser` | src/server/commands.c:155-169 | creating the user's directory and password file represents the user added |
| `ServerTree.AddSub` | src/server/commands.c:465 | creating the user's file in the group represents the subscription |
| `ServerTree.AddGroup` | src/server/commands.c:425-439 | creating the directory, MSG and name.txt represents the new group |
| `ServerTree.MakeMessages` | src/server/commands.c:430 | between these creations the tree without the new directory still represents the old state, and no message changes |
| `ServerTree.PutName` | src/server/file_management.c:190-196 | creating `name.txt` and writing any part of the name still leaves the old state represented, and no message changes |
| `ServerTree.MakeName` | src/server/commands.c:435 | with its whole name the group is made, although messages may have been posted to it already |
| `ServerTree.SweepRepresents` | src/server/commands.c:207-222 | deleting the user's file from every group represents the user unsubscribed everywhere, and touches no message |
| `ServerTree.RemoveUser` | src/server/commands.c:196-222 | deleting the user's directory and the sweep represent the user forgotten, and touch no message |
| `ServerTree.RepresentsOne` | src/server/file_management.c:57-218 | a tree represents at most one state, so the abstraction is a function |
| `ServerTree.InitialRepresents` | src/server/file_management.c:33-34 | a fresh tree represents the empty state |
| `ServerCommands.DirectoryServer.CheckCredentials` | src/server/commands.c:92-124 | 0, 1 or 2 exactly as the represented state says |
| `ServerCommands.DirectoryServer.Register` | src/server/commands.c:138-175 | OK, DUP or NOK by the words and by whether USERS has the user's directory; OK makes it with `pass.txt`, and nothing else changes; the tree represents the state machine's new state, and no message changes |
| `ServerCommands.DirectoryServer.Unregister` | src/server/commands.c:180-238 | OK iff `pass.txt` of the user holds the password; then the user's directory and the user's file in every group are gone, and every other path is as before; otherwise the tree is unchanged |
| `ServerCommands.DirectoryServer.LeaveGroups` | src/server/commands.c:207-222 | the loop over all groups deletes the user's file from each and nothing else |
| `ServerCommands.DirectoryServer.Login` | src/server/commands.c:243-278 | OK iff `pass.txt` of the user holds the password; then the user's `login` is there, and no other path has changed; otherwise the tree is unchanged |
| `ServerCommands.DirectoryServer.Logout` | src/server/commands.c:283-317 | OK iff `pass.txt` of the user holds the password; then the tree is the old one without the user's `login`, otherwise unchanged |
| `ServerCommands.DirectoryServer.Subscribe` | src/server/commands.c:382-486 | the reply is the state machine's; OK adds the user's file to the group, NEW makes the group's directory, MSG, `name.txt` and that file; any other outcome changes nothing; where the stream is null the process ends |
| `ServerCommands.DirectoryServer.CreateGroup` | src/server/commands.c:425-439 | the three creations succeed and give the new group; the trees between them, which forked children may see, are half-made groups, with any first part of the name in `name.txt` |
| `ServerCommands.DirectoryServer.Unsubscribe` | src/server/commands.c:491-538 | E_USR, E_GRP or OK by the words and by the directories of user and group; OK leaves the tree without the user's file in the group, anything else leaves it unchanged |
| `PostSafety.ClaimIsNext` | src/server/commands.c:773-780 | a `mkdir` that succeeds claims the next id of the group, although the count is from a scan that may have missed entries |
| `PostSafety.StoreKeepsPosts` | src/server/commands.c:785-814 | storing one more entry of a child's message keeps every other message, every count and every claim |
| `PostSafety.WriteStep` | src/server/file_management.c:190-196 | so does writing any more of the file a child has open |
| `PostSafety.ClaimKeepsPosts` | src/server/commands.c:777-781 | a successful `mkdir` keeps the directory gap-free and gives the new id one owner |
| `PostSafety.SerialStep` | src/server/server.c:185-188 | a step of the main process between any two steps of children keeps the invariant, the steps that make a new group included |
| `PostSafety.StepKeepsInv` | src/server/server.c:185-203 | every step of the server or of any child keeps the invariant |
| `PostTheorems.RunKeepsInv` | src/server/server.c:185-203 | the invariant holds after every interleaving of any number of posts with the steps of the main process |
| `PostTheorems.MidsUnique` | src/server/commands.c:770-819 | no two posts to one group ever hold or reply the same MID |
| `PostTheorems.DirectoryExact` | src/server/commands.c:773-780 | MSG holds exactly 1..m, m is their count, and every one has an owning post |
| `PostTheorems.MkdirFailsIff` | src/server/commands.c:777-781 | a post fails at `mkdir` iff another post holds the id it counted, which was not there when it began to count, or its group is being made and has no MSG yet |
| `PostTheorems.StepRefinesLog` | src/server/commands.c:777-781 | each step leaves each abstract log alone, except that a successful `mkdir` appends the child's post to its group's log |
| `PostTheorems.LogAppendOnly` | src/server/commands.c:770-819 | over a run a log only grows at its end |
| `PostTheorems.AnsweredIsStored` | src/server/commands.c:770-819 | what was answered with MID m is message m, stored exactly as it was sent |
| `PostTheorems.Delivered` | src/server/commands.c:770-819 | after any further interleaving it still is |
| `PostTheorems.CompleteIff` | src/server/commands.c:785-814 | a claimed message is stored as it was sent iff its owner has answered, is about to, or has written all of the last file the post needs |
| `PostTheorems.CompleteStays` | src/server/commands.c:770-819 | such a message looks the same in every later state |
| `PostTheorems.EarlyPostRefused` | src/server/commands.c:425-439 | in any state that allows it, the run in which a post to a group without MSG is refused, although nobody has claimed anything there |
| `PostTheorems.UnfinishedLooksFinished` | src/server/commands.c:785-798 | between its text and its file a message cannot be told from a complete one without a file |
| `EndToEnd.PostThrough` | src/user/commands.c:519-557 | what the user typed arrives in the server's variables as meant, with and without a file |
| `Host.MsgsScanned` | src/server/file_management.c:129-149 | a scan of MSG that takes as long as a run yields all messages of its start and none that is not there at its end |
| `Reachable.GroupMade` | src/server/commands.c:417-466 | the steps of a new group, one after another, do what `subscribe` does |
| `Reachable.ScanAllowed` | src/server/file_management.c:129-149 | conversely, every listing between these bounds is a possible outcome of a scan |
| `Reachable.OwnerFinishes` | src/server/commands.c:785-819 | from wherever it has got, a post that holds an id can go on until it is stored and answered |
| `Reachable.LogGrowsTo` | src/server/commands.c:770-819 | from every state with a group whose posts have all been answered, some run makes its log any length up to 9999, with every post stored and answered |
| `Reachable.FirstPostRefused` | src/server/commands.c:425-439 | from the start: a run in which the first post to the first group is refused |
| `Delivery.CompleteIsShown` | src/server/commands.c:881-966 | a message that was complete when `retrieve` began is shown in its place, as it was sent, if no message visited before it is fatal or garbled; whatever becomes of those behind it |
| `Delivery.SafeIsShown` | src/server/commands.c:881-966 | which is sure if none of those before it could be fatal when `retrieve` began |
| `Delivery.SettledWindow` | src/server/commands.c:859-983 | if all messages of the window were complete when `retrieve` began, the child survives and the client shows the window of the log |
| `Delivery.SettledShown` | src/server/commands.c:881-972 | of a log with n messages, those from `mid` to `mid` + 19 complete at the start, the client shows min(20, n - `mid` + 1): `mid`, `mid` + 1, .. with the log's posts; or that there is nothing, if `mid` > n |
| `Delivery.TwentyShown` | src/server/commands.c:881-972 | if there were 20 of them, it shows just these, whatever is posted meanwhile |
| `Delivery.NoMoreThanTwenty` | src/server/commands.c:881-887 | the client is never shown more than 20 messages, whatever the others do |
| `Delivery.CountsAgree` | src/server/commands.c:881-887 | if the gaps its scan may have are harmless, the client shows just the records that were sent |
| `Certainty.RiskyIsFatal` | src/server/commands.c:907-944 | a message without all its files, or whose file may still come, can be fatal: some run beside the `retrieve` makes it so |
| `Certainty.PartHappens` | src/server/commands.c:907-966 | a message that is safe but not complete can be shown in part |
| `Certainty.SureIff` | src/server/commands.c:859-983 | a client that asks from `mid` is sure to be shown message `id` exactly iff it is complete and no message from `mid` up to it can be fatal; both can be seen before the call |
| `Certainty.CountGoesWrong` | src/server/commands.c:872-887 | whenever `Windows.CountsRightIff` says the count may be wrong, some run from the start with a scan in it makes the client show other records than were sent, although all of them are complete |
| `EndToEnd.PostedIsRetrieved` | src/server/commands.c:729-990 | after any run, a client that asks from `mid` is sure to be shown an answered message `id`, author, text and file as they were sent, exactly iff no message from `mid` up to it can be fatal; always, if it asks for `id` itself |
| `EndToEnd.RetrieveThrough` | src/server/commands.c:841-990 | request, server, connection and client joined, with all other processes running: the client shows what it makes of the stream that the scan and the visits give, cut off or not |
| `EndToEnd.RetrieveWindow` | src/user/commands.c:581-705 | the same on the programs: never more than 20, and a settled window is shown as the log has it; a missing group is reported |
| `EndToEnd.RetrievePosted` | src/user/commands.c:604-698 | the same theorem on the programs |
| `EndToEnd.HearAndRetrieve` | src/user/commands.c:560-573 | a client that retrieves what it was told: it is told the right MID iff its one `read` returned 8 bytes or more, and is then shown its own post, whatever else happens |
| `EndToEnd.SixBytesTold` | src/user/connection.c:224 | the concrete case: of any MID below 100, six bytes are taken for 00 |
| `GroupLists.Mine` | src/server/commands.c:592-620 | the lines of the groups to which the user subscribes, and no others |
| `GroupLists.ListingText` | src/server/commands.c:336-370 | what the loops append piece by piece is the line of all the words |
| `GroupLists.ReadGroups` | src/user/commands.c:255-267 | the client's pointers end up at the ids, names and counts the server printed, all at once |
| `GroupLists.RglFits` | src/server/commands.c:334-370 | the RGL reply with its NUL fits its buffer iff there is a group, and always the client's |
| `GroupLists.RgmFits` | src/server/commands.c:584-645 | what `my_groups` collects fits its buffer iff there is a group, and its reply fills its own exactly |
| `GroupLists.GroupFiles` | src/server/commands.c:692 | the plain files of a group are name.txt and one per subscriber |
| `GroupLists.UsersCount` | src/server/commands.c:692 | the size of that list less one is the number of subscribers |
| `GroupLists.ReadUsers` | src/user/commands.c:474-500 | on every stream and for every segmentation: what the client shows of the users of a group |
| `GroupLists.ReadsUsers` | src/user/commands.c:474-500 | of every readable reply: the name and the users, and the empty word that ends them; without "OK", or without any reply, no group |
| `ListServer.GroupsScanned` | src/server/commands.c:328 | children never change what a scan of the groups yields |
| `ListServer.CountMessages` | src/server/commands.c:346 | the count of a MSG directory lies between the lengths of the log when it was opened and when it was closed |
| `ListServer.GroupText` | src/server/commands.c:339-359 | one line: id, name, and such a count, while posts go on |
| `ListServer.Groups` | src/server/commands.c:322-377 | the reply lists every group in the order of its id, each line with its own opening and closing |
| `ListServer.EntryIsSubscription` | src/server/commands.c:592 | a group directory holds the user's file iff the user subscribes |
| `ListServer.MyGroups` | src/server/commands.c:543-656 | the same, of the groups to which a logged-in user subscribes; the error replies as the code sends them |
| `ListServer.NameThere` | src/server/commands.c:684-690 | whether `name.txt` of a group is there, and how much is in it, also while the group is being made |
| `ListServer.StepKeepsGroup` | src/server/commands.c:382-538 | over every step, no group goes, and what is there of its name stays and is only added to |
| `ListServer.FilesOfGroup` | src/server/commands.c:692 | as soon as `name.txt` is there, the plain files of a group are that and one per subscriber |
| `ListServer.FilesScanned` | src/server/commands.c:692 | a scan beside `subscribe`, `unsubscribe` and `unregister` yields all lasting subscribers and only users who subscribe at some time during it |
| `ListServer.Ulist` | src/server/commands.c:661-727 | the reply has as much of the name as was there when it was read, or what was in the buffer if that was nothing, and names such users once each; the error replies; no reply iff `name.txt` was not there when it was opened |
| `ListServer.NamelessIff` | src/server/commands.c:686-689 | which is the case iff the group is being made and has not got that far |
| `ListMeaning.ListedMid` | src/server/commands.c:346-359 | the count a group is listed with is the length of its log and the largest MID in its MSG |
| `ListMeaning.ListFits` | src/common/constants.h:17 | after any run, and whatever posts go on meanwhile, both lists fit the client's buffer |
| `ListMeaning.UndisturbedLine` | src/server/commands.c:346-359 | if no message of the group was claimed while its MSG was open, the MID listed is the length of its log and the largest MID there is |
| `ListMeaning.QuietList` | src/server/commands.c:328-365 | without any post meanwhile, the list is that of the tree |
| `ListMeaning.QuietMine` | src/server/commands.c:587-624 | and so is the list of a user's groups |
| `ListMeaning.ListedAs` | src/server/commands.c:328-365 | that of the tree is 01, 02, .. in order, each with its name and the length of its log |
| `ListMeaning.AskGroups` | src/user/commands.c:245-273 | from the client's datagram through both programs to its pointers: every group in order, with a MID bounded as above; no answer iff the main process has ended |
| `ListMeaning.MineHolds` | src/server/commands.c:587-624 | RGM of a tree is its RGL without the groups to which the user does not subscribe |
| `ListMeaning.MineAscending` | src/server/commands.c:587-624 | a user's list has each group to which the user subscribes, once, by ascending id |
| `ListMeaning.LeftIsNotMine` | src/server/commands.c:491-624 | after "RGU OK" a user's list of groups is as before, without that group |
| `ListMeaning.LeftIsNotSeen` | src/server/file_management.c:246-265 | and no scan of the group's users, with children beside it, names the user |
| `ListMeaning.AskMine` | src/user/commands.c:375-414 | the same for a user's groups; "RGS E_USR" is understood although it has the tag of another command |
| `ListMeaning.AskUsers` | src/user/commands.c:456-500 | from the server's tree to the client's screen: as much of the name as was there and the users, or no group if it is unknown or still lacks name.txt |
| `MainProcess.Boot` | src/server/file_management.c:15-40 | the machine of all these contracts can be started |
| `MainProcess.CommandIsRun` | src/server/server.c:15-70 | what the programs do to the tree for a command is a step of the transition system, or the steps of a new group |
| `MainProcess.Dispatch` | src/server/server.c:15-70 | all eight datagrams by their first word, whatever stale bytes follow: the main process does what was asked for, as a run, or nothing if it has ended |
| `Requests.Serve` | src/server/server.c:15-70 | for the six commands that change the tree: whatever stale bytes follow the request, the server executes exactly the command that was sent |
| `Requests.ReplyFits` | src/user/connection.c:162-174 | every reply is a line of words that fits the client's buffer with its NUL |
| `Requests.StatusTells` | src/user/commands.c:302-324 | `strcmp` with each status tells exactly one outcome from all others |
| `Requests.Ask` | src/user/commands.c:98-111 | the client reads the status of exactly the command it meant, under the expected tag, and the id behind NEW, or gets no answer after a crash |
| `Outcomes.Registering` | src/server/commands.c:138-175 | "RRG OK" iff the words are valid and the UID is not taken, and then it has this password and nobody else has changed; "RRG DUP" iff it is taken, and then nothing has changed |
| `Outcomes.RegisteredLogsIn` | src/server/commands.c:138-278 | right after "RRG OK" a login succeeds with exactly the password given |
| `Outcomes.Unregistering` | src/server/commands.c:180-238 | "RUN OK" iff the password is the user's; then the user is no user, not logged in and in no group, and nobody else has changed; "RUN NOK" changes nothing |
| `Outcomes.LoggingIn` | src/server/commands.c:243-278 | "RLO OK" iff the password is the user's; then the user is logged in and nothing else has changed; "RLO NOK" changes nothing |
| `Outcomes.LoggingOut` | src/server/commands.c:283-317 | "ROU OK" iff the password is the user's; then the user is not logged in and nothing else has changed; "ROU NOK" changes nothing |
| `Outcomes.Subscribing` | src/server/commands.c:382-486 | the bytes of the reply for every request and state; a 100th group and a missing one get none |
| `Outcomes.SubscribeChanges` | src/server/commands.c:382-486 | from the bytes of the reply: whom it has subscribed to what, which group has come with whom, and that nothing else has changed |
| `Outcomes.Unsubscribing` | src/server/commands.c:491-538 | the bytes of the reply for every request and state; after "RGU OK" the user is not in the group, and no other subscription, name, user or login has changed |
| `History.RepliesAreExpected` | src/server/commands.c:138-538 | after any sequence of commands, the next reply is decided, byte for byte, by the commands and replies so far: the password last accepted, the names of the groups answered with NEW, their number |
| `History.SubscribersAreTold` | src/server/commands.c:138-538 | and so are the users, who is logged in, and the subscribers of every group |
| `Serving.RunAnswers` | src/server/server.c:15-70 | in any run from the start, with any `post` and `retrieve` children between and beside the commands, replies are still those that the exchanges make one expect |
| `Session.ActKeepsAgree` | src/user/commands.c:92-434 | every command of a client keeps: who it is logged in as is registered with its password and logged in; a selected group implies a login |
| `Session.SessionAgrees` | src/user/commands.c:92-434 | so does every session |
| `Session.LogOutAccepted` | src/user/commands.c:203-228 | logging out fails only if the main process has ended; otherwise both sides forget the login |
| `Session.LogOutIff` | src/user/commands.c:203-228 | at the end of any session, logging out succeeds iff no command of it subscribed the logged-in user, by well-formed words, to a group that did not exist, or to a new one when there were 99 |
| `Session.SelectedAsTyped` | src/user/connection.c:117-121 | the selected group is the one typed, although it is converted and printed again |
| `Session.RegisterTold` | src/user/commands.c:92-121 | the user is told that the UID is taken iff it is; otherwise, if the words are valid, of success, and the user is registered with what was typed |
| `Session.UnregisterTold` | src/user/commands.c:127-157 | success iff the password is the user's; then the user is gone at the server, and logged out here if it was the session's own; otherwise both sides are as before |
| `Session.LogInTold` | src/user/commands.c:163-198 | success iff the password is the user's and nobody is logged in; who is, is told so, although the server has logged the other in |
| `Session.SubscribeTold` | src/user/commands.c:278-325 | the message for each state of the server: the new id below 100 groups, a wrong name, no answer for a missing group or at 99; and what has changed there |
| `Session.UnsubscribeTold` | src/user/commands.c:330-368 | the group is called invalid iff it is not there; otherwise success, and the user is not in it any more |
| `Session.AloneUnless` | src/user/commands.c:187-196 | the converse fails exactly at a login as somebody else while logged in, which a running server accepts and the client does not |
| `Session.RequestFits` | src/user/commands.c:92-345 | what the client sends is a line of words that fits the server's buffer |
| `Session.Client.RegisterUser` | src/user/commands.c:92-121 | both sides end as the joint step says, and still agree |
| `Session.Client.UnregisterUser` | src/user/commands.c:127-157 | both sides end as the joint step says, and still agree |
| `Session.Client.LogInUser` | src/user/commands.c:163-198 | both sides end as the joint step says, and still agree |
| `Session.Client.LogOutUser` | src/user/commands.c:203-228 | both sides end as the joint step says, and a logged-in client succeeds iff the main process is still there |
| `Session.Client.SubscribeGroup` | src/user/commands.c:278-325 | both sides end as the joint step says, and still agree |
| `Session.Client.UnsubscribeGroup` | src/user/commands.c:330-368 | both sides end as the joint step says, and still agree |
| `Session.Client.SelectTyped` | src/user/commands.c:419-434 | both sides end as the joint step says, and still agree |
| `Session.Begin` | src/user/user.c:94-97 | a client and a server that agree can be started |
| `Formats.UidIff` | src/server/commands.c:14-27 | a UID is one of 00000 to 99999, printed with five digits |
| `Formats.GidIff` | src/server/commands.c:43-55 | a group id is one of 00 to 99, printed with two digits |
| `Formats.MidIff` | src/server/commands.c:71-87 | the server takes the message numbers 0001 to 9999, in four digits |
| `Formats.TypedMidIff` | src/user/commands.c:70-89 | the client takes them with zeros left out, in one to four digits |
| `Formats.PassIff` | src/server/commands.c:29-41 | a password is eight letters or digits, by their codes |
| `Formats.GnameIff` | src/server/commands.c:57-69 | the name of a group has at most 23 letters, digits, hyphens and underscores |
| `Formats.LongestWord` | src/common/constants.h:12 | a word fits a buffer iff it has at most 127 bytes |
| `Formats.LargestSize` | src/user/commands.c:632-644 | a size is read, and its bytes after it, iff it is at most 2147483647 |
| `Formats.AtoiSigns` | src/user/commands.c:615 | `atoi` skips blanks, knows signs and stops at the first byte that is no digit |
| `Formats.PasswordDatagrams` | src/user/commands.c:100-214 | the bytes of the four requests with a password |
| `Formats.GroupDatagrams` | src/user/commands.c:292-345 | the bytes of the two requests about a subscription |
| `Formats.ListDatagrams` | src/user/commands.c:249-385 | the bytes of the two requests for a list |
| `Formats.GroupsText` | src/server/commands.c:337-373 | the bytes of the lists of groups, line by line |
| `Formats.PostText` | src/user/commands.c:537-550 | the bytes of a post with and without a file, and of its reply |
| `Formats.RetrieveText` | src/user/commands.c:599-602 | the bytes of a request for messages, behind its name |
| `Formats.AnswerLines` | src/server/commands.c:877-972 | the bytes of the three replies to `retrieve`, record by record |
| `Formats.UsersText` | src/server/commands.c:693-713 | the bytes of the replies to `ulist` |
| `Formats.MessageFiles` | src/server/commands.c:771-814 | where in the tree author, text and file of a stored message are, and that nothing else is in its directory |

## Left out

- Sockets, `getaddrinfo`, `select`, signals, timers, argument parsing, verbose and coloured output: only "datagrams are serial, connections interleave", the datagram and the byte stream remain.
- `malloc` and `free`, leaks, and the sizes of path buffers.
- Errors of the file system other than an existing or a missing name, and lost datagrams.
- ByteStream.Socket.Write: `write` and `dprintf` calls whose result the code ignores are taken to accept everything.
- Tree.FileSystem.CreateFile: opening, writing and closing a file is one step of the main process; only `name.txt`, the one such file that children read, is followed piece by piece (`PostProtocol.WriteName`).
- RetrieveRecord.WriteRecord: the list of a message's FILE is one step; one entry at most can ever be in it.
- ServerCommands.DirectoryServer.Unregister: its deletions, and every command but a new group, are one step for the children. Of these only `ulist` looks at what they change, one file per group.
- RetrieveServer.ParseRtv: only the checks; after rejecting a request the code sends from a freed buffer and goes on (`src/server/commands.c:850-857`), which no contract here speaks of.
- Retrieve.ReadAnswer: what the client does after it has overrun a buffer; and its `fopen` of the file it stores is taken to succeed.
- ListServer.Ulist: a buffer for the name that holds no NUL is read to its end and no further.
- PostTheorems.MkdirFailsIff: the error replies of `post` after the group has been found go through the datagram sender (`src/server/commands.c:776-803`), so a failed post is only the outcome `Failed`, and what the client makes of a connection without reply is not modelled.
- An id above 9999 overflows the buffer it is printed into (`src/server/commands.c:774-775`), so such a child has no step.
- CText.AtoiDec: `atoi` is modelled without overflow, which no printed number here reaches.
- Tokenizer.GetQuote: the byte after the one that ends the quote must be in the buffer, which for a quote that is not closed is one past the end of its string.
- Tokenizer.GetWord: an empty word at the very start of a buffer is excluded, because the code reads the byte before it.
- ServerCommands.DirectoryServer.Subscribe: an empty name for a new group is excluded, as in `Session.Client.SubscribeGroup`.
- Session.Client.SubscribeGroup: an empty name for a new group is excluded; both programs accept one, and `fscanf` then leaves the name it reads undefined.
- Names of files with a blank, a NUL, a newline or '/', names as long as their buffers, and the names "." and "..".
- Failing or closed connections in the middle of a message.
- Access rights of `post`, `retrieve` and `ulist`: the server checks none there, and nothing is claimed.
- Process ids are never used again in `PostProtocol`.
- The client's own checks, before `post`, `retrieve`, `ulist` and `my_groups`, that somebody is logged in and a group selected.
- `showuid`, `showgid`, `exit`, the client's own command line and `test/test.c`, which is an older copy of the helpers: only easy members would come of them.
