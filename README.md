# WeCode collaborative editor backend: a Dafny model

This project models the backend core of the WeCode collaborative code editor.

- **Code execution** (`executeCode` in backend/execute.js):
  - each submission gets a job directory named after the current timestamp;
  - the standard input goes to `input.txt` and the source file is written under a per-language name (for Java, the name of the first `public class`);
  - a `docker run` command with memory and CPU limits is built, with the job directory mounted at `/usr/src/app`;
  - the directory is removed once the container has exited or a staging call has thrown; when the container cannot even be spawned, the returned promise rejects and the directory stays, since that promise is returned without `await` and so bypasses the `catch` that would remove it;
  - the container's outcome becomes `{error, output}`.
- **Room presence** (backend/server.js):
  - `userSocketMap` and the socket.io room membership;
  - `getAllClients`;
  - the JOIN, CODE_CHANGE, SYNC_CODE and `disconnecting` handlers. A JOIN is refused when a member of the room already uses the email.
- **HTTP validation**: the request checks of `POST /execute` and `POST /get-video-token`, and the 500 answer `/execute` gives when `executeCode` rejects.

Modules, one per file:

- `Wrappers`: `Option`.
- `EntryPoint`: the regular expression `public\s+class\s+(\w+)` and its leftmost-match semantics.
- `Paths`: `path.join` and the backslash rewrite.
- `Languages`: the language registry and the docker commands.
- `Workspace`: a `FileSystem` class for the host filesystem (with a recursive mkdir that also creates missing ancestors), and job ids.
- `Execute`:
  - `Execute` is the specification function for the result and the steps; `StagedEntries` and `FinalEntries` specify the filesystem when `exec` starts and when the job settles;
  - `StageJob`, `StageSource` and `ExecuteCode` are the imperative operations on a `FileSystem`.
- `Presence`: the state-transition functions, the fan-out loops and the `RoomServer` class.
- `Routes`: the two routes.

Several things become parameters:

- The clock (`Date.now()`) and the output directory are a `Host` parameter.
- Failures of the host filesystem calls are a `Faults` parameter.
- What the container reports is an `ExecOutcome` parameter.
- The LiveKit token signer's result is an `Option` parameter.

Emitted socket events are returned as a list of (recipient, event) pairs in emission order.

## Model

| member | source | states |
|---|---|---|
| EntryPoint.MatchAt | backend/execute.js:46 | an attempt of `public\s+class\s+(\w+)` at one index succeeds only with a greedy occurrence starting there |
| EntryPoint.SpaceRun | backend/execute.js:46 | `\s+` consumes the longest run of whitespace from an index: all whitespace, then a non-space or the end |
| EntryPoint.WordRun | backend/execute.js:46 | `(\w+)` consumes the longest run of word characters from an index: all word characters, then a non-word character or the end |
| EntryPoint.MatchAtDetermined | backend/execute.js:46 | every greedy occurrence at an index is exactly what the attempt at that index returns |
| EntryPoint.MatchAtComplete | backend/execute.js:46 | when the attempt at an index fails, no occurrence starts there |
| EntryPoint.OccurrenceUnique | backend/execute.js:46 | two greedy occurrences at the same index are equal (backtracking cannot give a second capture) |
| EntryPoint.Search | backend/execute.js:46 | the scan returns only greedy occurrences at or after its start |
| EntryPoint.SearchFirst | backend/execute.js:46 | the scan returns the leftmost match, and when it fails no index matches |
| EntryPoint.SearchComplete | backend/execute.js:46 | `code.match` fails if and only if the code has no occurrence at all |
| EntryPoint.ClassName | backend/execute.js:46-47 | the class name is never empty and consists of word characters only |
| EntryPoint.ClassNameIsLeftmostCapture | backend/execute.js:46-47 | with a match, the class name is capture group 1 of the leftmost occurrence |
| EntryPoint.ClassNameFallback | backend/execute.js:47 | without a match, the class name is `Main` |
| Paths.Join | backend/execute.js:13 | `path.join(dir, name)` is `dir`, one separator, then `name` |
| Paths.JoinIsWithin | backend/execute.js:18 | a joined path lies inside its directory |
| Paths.JoinDistinctNames | backend/execute.js:18 | distinct file names give distinct paths in the same directory |
| Paths.ToForwardSlashes | backend/execute.js:24 | the volume path keeps its length, has every backslash replaced by `/` and nothing else changed, and contains no backslash |
| Paths.ToForwardSlashesIdempotent | backend/execute.js:24 | rewriting twice equals rewriting once |
| Paths.ToForwardSlashesKeepsPlainPath | backend/execute.js:24 | a path without backslashes (POSIX) is mounted unchanged |
| Languages.ParseLanguage | backend/execute.js:26-55 | exactly the keys `javascript`, `python`, `cpp` and `java` select a language, and each selects the one it names |
| Languages.ParseKey | backend/execute.js:26-55 | every language is selected by its own key |
| Languages.SourceFileName | backend/execute.js:26-51 | the source file is `userCode.js`, `userCode.py`, `userCode.cpp`, or the Java class name plus `.java` |
| Languages.DescriptorOf | backend/execute.js:26-51 | the descriptor names that source file, there is a build step exactly for C++ and Java, and the step that reads the source hands `/usr/src/app/<source file>` to node, python, g++ or javac |
| Languages.Script | backend/execute.js:30-50 | the script inside the container opens with the step that reads the source |
| Languages.ScriptReadsStagedSource | backend/execute.js:28-50 | every script begins by handing the staged source file, as mounted, to the tool that reads it |
| Languages.Render | backend/execute.js:30-50 | every command starts with the docker limits and the volume mounted at `/usr/src/app`, and ends by redirecting `input.txt` into the program |
| Languages.Command | backend/execute.js:30-50 | the command `exec` receives carries the memory and CPU limits and the job directory mounted at `/usr/src/app`, and feeds `input.txt` to the program |
| Languages.CompiledRunsOnlyAfterBuild | backend/execute.js:42-50 | for C++ and Java the program runs only after the build succeeds (`build && run < input`) |
| Languages.JavaBuildsAndRunsStagedClass | backend/execute.js:46-50 | Java compiles the file it staged and runs the class that file is named after |
| Languages.ClassNameHasNoShellMetacharacters | backend/execute.js:46-50 | the class name spliced into the shell command has no quote, space, `;`, `&`, `$` or backtick |
| Languages.SourceFileIsNotInputFile | backend/execute.js:18-48 | no language's source file can overwrite `input.txt` |
| Workspace.Outside | backend/execute.js:76 | a recursive removal keeps exactly the entries outside the removed directory, unchanged |
| Workspace.AncestorIsSeparatedPrefix | backend/execute.js:16 | the ancestors a recursive mkdir may create are exactly the non-empty proper prefixes of the path that end just before a separator |
| Workspace.MadeDirectory | backend/execute.js:16 | after a recursive mkdir the path and all its ancestors exist, the missing ones as directories, and every existing entry is unchanged |
| Workspace.MadeDirectoryOutside | backend/execute.js:16 | outside the new directory a recursive mkdir only adds missing ancestors, as directories |
| Workspace.MadeDirectoryWithParents | backend/execute.js:16 | when every ancestor already exists, a recursive mkdir changes nothing outside the new directory |
| Workspace.FileSystem.MakeDirectory | backend/execute.js:16 | a recursive mkdir adds the directory and every missing ancestor as directories and keeps every existing entry; a fault changes nothing and is reported |
| Workspace.FileSystem.WriteFile | backend/execute.js:19-49 | a write creates or replaces the file with the data; a fault changes nothing and is reported |
| Workspace.FileSystem.RemoveTree | backend/execute.js:62 | a forced recursive removal deletes the path and everything under it; a fault changes nothing and is reported |
| Workspace.Decimal | backend/execute.js:12 | the timestamp's decimal text is non-empty, all digits, and a single digit exactly below 10 |
| Workspace.DecimalInjective | backend/execute.js:12 | distinct timestamps have distinct decimal texts |
| Workspace.JobId | backend/execute.js:12 | the job id is `job-` followed by the timestamp in decimal, and holds no path separator |
| Workspace.JobDir | backend/execute.js:13 | the job directory lies directly inside the output directory, its last component the job id |
| Workspace.JobDirsDifferExactlyByTimestamp | backend/execute.js:12-13 | two job directories coincide if and only if their timestamps do |
| Execute.InputText | backend/execute.js:19 | `input.txt` holds the input, or the empty text when none was given |
| Execute.Normalise | backend/execute.js:67-70 | a failed run reports an error with `stderr`, or the error's message when `stderr` is empty; a clean run reports `stdout` |
| Execute.Stage | backend/execute.js:15-55 | staging attempts one to three steps, starting with the mkdir, that only create; it reaches `exec` exactly when no call threw and the language is supported |
| Execute.Execute | backend/execute.js:11-81 | every job starts with the mkdir; it rejects exactly when staging succeeded and the spawn threw, and then ends with the container run; otherwise it resolves and ends with the removal of its directory; nothing is removed earlier |
| Execute.RemovalFaultNeverChangesResult | backend/execute.js:61-77 | a failed removal never changes how the job settles or the steps attempted |
| Execute.SupportedLanguageRuns | backend/execute.js:16-70 | a supported language with no faults does mkdir, input, source, run, removal in that order, and returns the normalised outcome |
| Execute.SpawnFailureRejects | backend/execute.js:57-72 | when the container cannot be spawned after a clean staging, the job rejects with that message after mkdir, input, source and the attempted run, and nothing removes the directory |
| Execute.UnsupportedLanguageAfterStagingInput | backend/execute.js:16-79 | an unsupported language is reported only after the directory and `input.txt` were written, and the directory is still removed |
| Execute.StagingFaultIsReported | backend/execute.js:74-79 | a throwing staging call ends the job with that call's message and no container run |
| Execute.RunIsNextToLast | backend/execute.js:57-62 | the container is started at most once: directly before the removal, or as the last step when the spawn threw |
| Execute.JobDirectoryExistsAfterMkdir | backend/execute.js:16-49 | once the mkdir succeeds the job directory exists when `exec` starts, whatever later staging call fails |
| Execute.StagedFilesInPlace | backend/execute.js:16-49 | when staging reaches `exec`, the container finds the job directory, `input.txt` holding the input and the source file holding exactly the code |
| Execute.StagingStaysInJobDirectory | backend/execute.js:15-55 | staging changes no existing entry outside the job directory, and adds outside it only missing ancestors of the job directory, as directories |
| Execute.CleanupRestoresHost | backend/execute.js:60-77 | when the job resolves, the removal succeeds and the output directory already exists, the filesystem ends exactly as it was with the job directory removed |
| Execute.StageJob | backend/execute.js:15-55 | performs exactly the specified staging steps and leaves exactly the specified filesystem: each call that succeeds takes effect, in order, and the first that throws ends staging |
| Execute.StageSource | backend/execute.js:26-55 | selects the language and writes the source as specified: nothing for an unsupported key or a failed write, otherwise the source file with exactly the code |
| Execute.ExecuteCode | backend/execute.js:11-81 | settles as specified after the specified steps; shows the container the staged filesystem; ends with the job directory removed unless the removal failed or the spawn threw |
| Presence.AddMember | backend/server.js:57 | `socket.join` appends a new socket at the end and leaves the list unchanged for a present one, keeping the members distinct |
| Presence.RemoveMember | backend/server.js:91 | leaving removes exactly that socket, keeping the members distinct |
| Presence.RemoveMemberKeepsOrder | backend/server.js:91 | the remaining members keep their relative order |
| Presence.ClientOf | backend/server.js:31-35 | a client record carries the socket id and the recorded username and email, or none when unrecorded |
| Presence.Members | backend/server.js:29 | the members of a room, or the empty list for a room nobody is in |
| Presence.RoomsOf | backend/server.js:80 | the rooms of a socket, or the empty list for a socket in no room |
| Presence.RoomsOfAgreesWithMembers | backend/server.js:80 | in a consistent state `socket.rooms` lists, once each, exactly the rooms whose members include the socket |
| Presence.AllClients | backend/server.js:28-38 | one record per room member in membership order; an unknown room gives the empty list |
| Presence.EmailTaken | backend/server.js:49 | the email is taken exactly when some listed client carries it; a client without a record never matches |
| Presence.EmailTakenByMember | backend/server.js:49 | the check finds the email if and only if some member of the room has it on record |
| Presence.Admit | backend/server.js:56-57 | an admitted JOIN records the user, adds the socket to the room, and changes no other room or socket |
| Presence.Leave | backend/server.js:90-91 | `disconnecting` deletes exactly the socket's record and removes the socket from every room, other members keeping their order |
| Presence.AdmitPreservesValid | backend/server.js:56-57 | a JOIN keeps the membership indexes consistent, duplicate-free, and every member recorded |
| Presence.LeavePreservesValid | backend/server.js:90-91 | leaving keeps the membership indexes consistent |
| Presence.Relay | backend/server.js:71-73 | a room broadcast reaches every member except the sender, and only them |
| Presence.JoinedEvents | backend/server.js:61-68 | JOINED goes to each listed client with the full updated list, the joiner's name, email and id |
| Presence.JoinedReachesEveryMember | backend/server.js:56-68 | after an admitted JOIN every member, the joiner included, receives JOINED and no one else does |
| Presence.FanoutReachesRoommates | backend/server.js:83-89 | DISCONNECTED reaches exactly the other members of the leaving socket's rooms |
| Presence.Fanout | backend/server.js:83-89 | every DISCONNECTED emission carries the event and never goes back to the leaving socket |
| Presence.DisconnectedEvent | backend/server.js:84-88 | DISCONNECTED carries the socket id and the recorded username and email, both undefined when the socket has no record |
| Presence.AdmitKeepsEmailsUnique | backend/server.js:47-57 | when sockets join only one room, no room ever holds two members with the same email |
| Presence.SecondRoomJoinCanDuplicateEmail | backend/server.js:47-57 | without that condition a socket joining a second room can duplicate an email in its first room |
| Presence.LeaveKeepsEmailsUnique | backend/server.js:90-91 | leaving keeps emails distinct in every room |
| Presence.Announce | backend/server.js:61-68 | the JOINED loop emits the specified events in list order |
| Presence.NotifyRooms | backend/server.js:83-89 | the DISCONNECTED loop emits the specified broadcasts room by room |
| Presence.RoomServer.constructor | backend/server.js:26 | the server starts with no users and no rooms |
| Presence.RoomServer.OnJoin | backend/server.js:46-69 | a taken email gets `join_error` to the joiner only and changes nothing; otherwise the state is admitted and JOINED fans out; consistency is kept |
| Presence.RoomServer.OnCodeChange | backend/server.js:71-73 | CODE_CHANGE is relayed to the room's other members |
| Presence.RoomServer.OnSyncCode | backend/server.js:75-77 | SYNC_CODE sends CODE_CHANGE to the named socket only |
| Presence.RoomServer.OnDisconnecting | backend/server.js:79-92 | every room of the socket is told DISCONNECTED with the socket's previous record, then the socket's record and memberships are removed; consistency is kept |
| Routes.ExecuteResponse | backend/server.js:98-111 | 400 with the fixed message exactly when `code` or `language` is falsy; otherwise 200 with the value `executeCode` resolves to, or 500 with the message it rejects with |
| Routes.ServerErrorOnlyWhenSpawnThrows | backend/server.js:104-110 | `/execute` answers 500 exactly for a valid request whose staging succeeded and whose container could not be spawned |
| Routes.HandleExecute | backend/server.js:98-111 | answers as specified; a rejected request leaves the filesystem untouched, and an accepted one leaves what `executeCode` leaves |
| Routes.VideoTokenResponse | backend/server.js:116-143 | 400 exactly when a field is falsy; otherwise the token, or 500 with the fixed message when signing threw |

## Left out

- Running the container: `child_process.exec` and Docker are an `ExecOutcome` parameter. Nothing is modelled about what the container does to the mounted directory (`a.out`, `.class` files).
- The Promise and async plumbing of `executeCode`: the calls are modelled in the order the `await`s impose.
- Console logging (backend/execute.js:58,64; backend/server.js:44,140,147).
- The creation of `tmp` at module load (backend/execute.js:5-9). The output directory is a parameter.
- `Date.now()`: the timestamp is a parameter. Two jobs in the same millisecond share a directory. The model states that job directories coincide exactly when timestamps do, and claims no uniqueness.
- `path.join` normalisation of `..`, repeated separators and trailing separators: `Join` appends one separator, which is what it does for the fixed names used here.
- Which filesystem calls fail, and with what message: a `Faults` parameter.
- Workspace.FileSystem.MakeDirectory: a failing mkdir is modelled as changing nothing, though a real one may have created some ancestors before it failed. A file already standing at the path or at an ancestor (EEXIST, ENOTDIR) is one of the faults the caller supplies; with no fault given, an existing entry is kept as it is.
- Workspace.FileSystem.WriteFile: a failing write is modelled as changing nothing, though a real one may have created, truncated or partly written the file before it failed.
- Workspace.FileSystem.RemoveTree: a failing removal is modelled as changing nothing, though a real one may have removed part of the tree before it failed.
- Request bodies with non-string JSON values (numbers, objects): fields are modelled as absent or as strings.
- The LiveKit `AccessToken` contents (identity, name, two-hour TTL, room grants) and the environment keys: the signer's result is an `Option` parameter.
- Express, CORS, the HTTP server and `server.listen`.
- socket.io connection handling and each socket's private room named after its id: rooms are the named rooms only.
- `socket.leave()` with no room argument (backend/server.js:91) removes nothing by itself. Removing the socket from its rooms is socket.io's own cleanup after the `disconnecting` handler returns, and `OnDisconnecting` models that cleanup.
- JOIN payloads whose `username` or `email` is missing: both are modelled as strings. With `email` absent, the check `client.email === email` would also match members that have no record.
- `io.to` and `socket.in` delivery across processes: emissions are a returned list.
- The frontend (pages, components, the socket client).
