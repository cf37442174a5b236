# A verified model of the cloud storage server

The server stores each distinct content once, under its md5, and counts the paths that refer to it. This
project models that store and everything a file passes through on its way in and out, and proves what holds
over every run.

**The store.** Five structures have to agree: the MySQL rows (`rows`), the Redis shortcuts (`paths`), the Redis
reference sets (`refs`), the Redis object metadata (`sizes`) and the object files (`disk`). `Store.dfy`,
`Transfer.dfy` and `Handlers.dfy` give every operation as a function from state to state; `Redis.dfy`,
`Service.dfy`, `Serving.dfy` and `Client.dfy` are the classes of the program, statement by statement, proved
against those functions: `RedisStore` on one flat keyspace of strings and sets, `TransferService`, `Connection`
and `CloudClient`. Files have POSIX semantics (`Disk.dfy`): a path names an inode, a descriptor holds an inode, and
unlinking a path leaves the bytes to whoever still holds them.

**The runs.** The server has one event thread, so a request is one step; uploads and downloads span many steps
and interleave over any number of connections (`Runs.dfy`). Md5 is an arbitrary function of the bytes. The only
premise about it is local to a step: a part that is about to be published has not the same md5 as a *different*
content already stored under it.

Two invariants are distinguished. `Safe`: every file row has its shortcut, its reference and its object.
`Exact`: besides, the reference set of an md5 is exactly the set of file rows that carry it, so an object exists
exactly while a file needs it. The design (docs/ARCHITECTURE.md, include/transfer.h) promises `Exact`. The code
keeps it exactly under five conditions on requests, and `Runs.GuardsAreExact` says that no weaker conditions
would do:

- G1 (`KeepsClaimed`): an instant upload does not replace the only reference to the content it claims;
- G2 (`MovesAway`): a file with content is not renamed to itself;
- G3 (`LandsOnSame`): a renamed file does not land on a file of another content;
- G4, G5 (`LandsOnNoFile`): mkdir, and the renaming of anything but a file, do not land on a file with content.

Without G3 the store stays `Safe`: only superfluous references remain. `Breaches.dfy` shows, for every content,
user and path, a good state with a user logged in, whose request violates a condition, is answered with success
and breaks the invariant. Only G1 loses bytes: there the request is the client's own `put` with overwrite over an
unchanged file, and there is a whole run from the empty server, put and put again. G2, G4 and G5 lose the row,
while the shortcut still opens for download; G3 strands a reference.

The conditions protect each user separately (`OneUser.dfy`): a user who respects G1, G2, G4 and G5 keeps every
file, with its content, whatever all other users do.

**The directories.** Beside the index there are physical directories, which PathGuard walks before any request is
served (`Trees.dfy` on `Resolution.dfy` and `FileSystems.dfy`). The server puts nothing but directories there, and
the two sides can come apart. Every file's path stays usable exactly under two more conditions:

- G6 (`LeavesNoFile`): what is renamed, when it is no file, has no file under its old path;
- G7: when an upload ends, the directory of its path is still there.

One thing no guard mends: renaming a directory indexes its new path as a file (src/transfer.cpp:584). From then on
rm and rename of that path are done and answered with success, and neither removes nor moves the directory or
anything in it. `RenamedDirectories.dfy` proves that this row is the exact condition, and gives a run from the
fresh server in which every request respects G1 to G7.

`TreeBreaches.dfy` shows that a request against G6 or G7 is done, keeps references exact, and leaves a file in the
index whose download is refused from then on.

**The plain map.** `PlainMap.dfy` is a second machine, on a map from (user, path) to bytes and the set of paths
that are indexed as files without content. Its step and its guards look at nothing but that map and the request.
The five structures together refine it: every step of the server is a step of the map, and the guards G1 to G5
are the map's own: they can be read off a listing of all files before the request is sent.

**Uploads.** Several connections may hold one part file, for a put that is cut off leaves its connection, with
the descriptor, to the idle timeout. `Parts.dfy` proves what any number of uploads that share a part keep, over
every run; `Uploads.dfy` derives from it what interrupted, resumed and finished puts achieve.

**What is refused.** `Requests.dfy` writes out, for every request, when it is accepted and how it is refused
otherwise, in terms of the stored state; over runs it follows that each accepted claim carried the digest of the
stored bytes in an issued range, and that no file exceeds the size limit. `Sessions.dfy` adds the login sessions:
what login, logout, tokens and expiry do, over runs of any number of connections. `Deliveries.dfy` joins the two
ends of an upload: the chunks a client encodes, cut anywhere on the wire, against the bytes in the part.

**The rest.** Downloads under interference (`Downloads.dfy`), where objects and parts are kept (`StorePaths.dfy`), recursive removal and listing through SQL LIKE
(`Sweeping.dfy`), frame reassembly (`Framing.dfy`), the frame format (`Protocol.dfy`), lexical path
normalisation (`Paths.dfy`), symlink-aware resolution (`Resolution.dfy` on `FileSystems.dfy`), and recursive
deletion and listing of directories (`FileTrees.dfy`).

## Model

| member | source | states |
|---|---|---|
| PlainMap.RefinesPlainMap | src/transfer.cpp:222-588 | over every run of any number of connections and users that keeps the map's guards, references stay exact and the server does, step by step, what the plain map does; md5 texts stand for object names (StorePaths.FilesApart, StorePaths.ObjectInRoot) |
| PlainMap.StepSimulates | src/connection.cpp:138-198 | one step of the server from an exact state is one step of the machine on the plain map, which knows nothing of rows, references and objects |
| PlainMap.GuardIsPlain | src/transfer.cpp:107-184 | from an exact state the conditions G1 to G5 on rows and reference sets hold if and only if the conditions on the plain map hold |
| PlainMap.StoredIsKnown | src/transfer.cpp:186-220 | in an exact state every stored object is the content of some file, so a claim of an md5 text that names an object (StorePaths.ObjectInRoot) can only give content that a user already has |
| PlainMap.StartIsEmpty | src/transfer.cpp:25-31 | the empty server shows the empty plain map, with which a refinement starts |
| Runs.FilesFollowChanges | src/transfer.cpp:222-588 | without G3 too: over every run that respects G1, G2, G4 and G5 every file keeps its reference and its object, and the users' files are those the requests' changes produce |
| Runs.ReferencesStayExact | src/transfer.cpp:92-184 | over every run that also respects G3, reference sets, rows, shortcuts, metadata and object files agree exactly |
| Runs.GuardsAreExact | src/transfer.cpp:107-184 | from an exact state, a step leaves an exact state if and only if it respects its guard, and a safe one if and only if it respects G1, G2, G4 and G5 |
| Runs.StepOutcome | src/connection.cpp:138-198 | each step changes the users' files as its request says (nothing, one key set, keys erased, one key moved), and keeps each invariant exactly under its guard |
| Runs.OnlyOwnFilesChange | src/connection.cpp:283-415 | the change of a step, from which FilesFollowChanges computes the files, touches keys of the sending session's user only |
| OneUser.OthersStay | src/connection.cpp:283-415 | guarded or not, a request neither changes nor breaks a file it does not name, and a refused request none at all |
| OneUser.StepForUser | src/transfer.cpp:107-184 | a user's own step keeps that user's files in order if and only if it respects G1, G2, G4 and G5, and then changes them as it says; a step of anybody else changes none of them |
| OneUser.CarefulUserIsSafe | src/transfer.cpp:222-588 | over every run in which one user alone respects the guards, whatever all others do, that user's files stay readable and are what the user's own requests made of them |
| OneUser.UserFilesAreFiles | src/transfer.cpp:360-385 | they are that user's part of the files |
| Trees.PlainPlace | src/path_guard.cpp:64-117 | in a tree of directories a path resolves exactly when its directory is there |
| Trees.PlaceIsResolved | src/path_guard.cpp:64-117 | the place of a key is what resolve computes for the client's path text |
| Trees.StepKeepsWorld | src/file_manager.cpp:91-138 | mkdir, rm, rename and the unlinks of uploads leave nothing but directories under the users' roots |
| Trees.TreesStayPlain | src/file_manager.cpp:91-138 | so it is over every run, with no guard on requests |
| Trees.MovedHas | src/file_manager.cpp:130-138 | after a rename everything at or below the source is at or below the destination, and everything else where it was |
| Trees.StepReaches | src/transfer.cpp:544-588 | one step leaves the path of every file usable if and only if it respects G6 and G7 |
| Trees.FilesStayReachable | src/connection.cpp:283-437 | over every run that respects G6 and G7 the path of every file stays usable |
| Trees.StartIsPlain | src/server.cpp:22-24 | a fresh server over directories is such a world |
| TreeBreaches.StrayIsRefused | src/path_guard.cpp:87-94 | every request about a key whose directory is missing is refused as NotFound, whatever the index holds |
| TreeBreaches.RenamedAway | src/transfer.cpp:580-587 | renaming anything but a file leaves every file under its old path where PathGuard finds no way to it |
| TreeBreaches.WayLost | src/connection.cpp:417-431 | in every exact world such a rename is done, keeps references exact and every file in the users' map, and from then on download_begin of the file is refused |
| TreeBreaches.DirectoryRenamedAway | src/transfer.cpp:580-587 | such a world exists for all names and contents (G6) |
| TreeBreaches.EndedNowhere | src/transfer.cpp:323-351 | in every exact world an upload that ends after its directory has gone is done, keeps references exact, and its file cannot be downloaded |
| TreeBreaches.UploadEndedNowhere | src/transfer.cpp:323-351 | such a world exists for all names and contents (G7) |
| TreeBreaches.LinkedDirectoryRemoved | src/path_guard.cpp:97-103 | with a link under a user's root even rm of an empty directory can cut off a file, so G6 and G7 are exact for trees of directories, which is what the server makes |
| Runs.ApplyElsewhere | src/transfer.cpp:544-588 | keys a change does not touch keep their content |
| Runs.PublishedContentIsRight | src/transfer.cpp:286-351 | over every run, with no guard at all and uploads sharing part files in any interleaving, every object's bytes hash to its name, and no open descriptor can write an object |
| Runs.SnapshotDownload | src/transfer.cpp:360-402 | a download that is open reads the same bytes at the end of any run, whatever was removed, overwritten, collected or published again in between |
| Runs.StoredPathsAreNormal | src/connection.cpp:283-403 | over every run, every path in the index and every path of an open upload is '/' and a normal form |
| Runs.StartIsExact | src/transfer.cpp:25-31 | the empty server satisfies every invariant and shows no files |
| Requests.LoginRequired | src/connection.cpp:128-133 | before a login every request but a login is refused as Unauthorized and changes nothing |
| Requests.PathIsKey | src/path_guard.cpp:17-50 | a path is good exactly when it holds no NUL and its components have a meaning, and it stands for those names of the session's user |
| Requests.QueryDecided | src/transfer.cpp:186-220 | instant_query hits exactly when an object of that md5 and size is there, and keeps the challenge under the session's token and the md5 |
| Requests.ChallengeIs | src/transfer.cpp:199-217 | the challenged range has the configured length, 4096 without one, or the object's size if that is less, and starts where the exact polynomial of md5 and token says |
| Requests.SeedIsPolynomial | src/transfer.cpp:210-214 | the hash loop in 64-bit arithmetic computes the low 64 bits of that polynomial |
| Requests.ClaimDecided | src/transfer.cpp:222-266 | the answer to instant_upload for every store, connection and claim, with the code of each refusal; a refused claim changes nothing but a spent challenge |
| Requests.ClaimAccepted | src/transfer.cpp:222-262 | a claim is accepted if and only if a challenge is kept for its token and md5, its offset is the challenge's, the object is there in the claimed size, the digest of its bytes in the challenged range is the proof, and nothing is in the way |
| Requests.ChallengesAreIssued | src/transfer.cpp:218-218 | over every run each kept challenge was issued by an instant_query of a session with that token |
| Requests.AcceptedClaimIsProved | src/transfer.cpp:226-246 | over every run each accepted claim answers a challenge issued before to the same token, and its proof is the digest of the stored bytes in the issued range |
| Requests.BeginDecided | src/transfer.cpp:268-304 | upload_begin is accepted if and only if the path is good, the size within the limit and the md5 of 32 characters; it opens the part of the user, md5 and last name; refused, it changes no file |
| Requests.ChunkDecided | src/transfer.cpp:306-321 | a chunk is written, at its offset and nowhere else, if and only if it carries the id of the connection's open upload and lies within the total |
| Requests.EndDecided | src/transfer.cpp:323-351 | upload_end is accepted if and only if the part is there with the announced size and digest; a part of the right size and the wrong digest is thrown away, and the upload is closed in every case |
| Requests.OpenDecided | src/transfer.cpp:360-385 | download_begin opens the object of the shortcut or, without one, of the file row; refused, it leaves no download open |
| Requests.ReadDecided | src/connection.cpp:439-460 | download_chunk answers for the connection's own open download only, and returns all bytes of the wanted length that are there unless the read is short |
| Requests.MkdirDecided | src/connection.cpp:283-291 | the answer to mkdir and the row it adds |
| Requests.RmDecided | src/connection.cpp:293-303 | the answer to rm; the root is refused, and done, the path has neither row nor shortcut |
| Requests.RenameDecided | src/connection.cpp:334-355 | the answer to rename and the rows it leaves |
| Requests.UploadsStayWithinLimit | src/transfer.cpp:271-273 | over every run whose chunks fit into frames no part, no object and no open upload exceeds the limit |
| Requests.StartIsWithinLimit | src/transfer.cpp:271-273 | the empty server is within it |
| Sessions.GoodToken | src/auth.cpp:132-150 | a token is good if and only if a text is kept for it that reads as a session, and it stands for that session |
| Sessions.LoginBegins | src/auth.cpp:121-128 | a login sets the connection's session and keeps its text under the token, and nothing else |
| Sessions.LogoutEnds | src/connection.cpp:223-230 | a logout takes the session from the connection and the token from Redis, and changes nothing else; the token is refused |
| Sessions.StrangerIsRefused | src/connection.cpp:147-150 | without a session and a good token every request but a login is refused and changes nothing |
| Sessions.TokenResumes | src/connection.cpp:147-150 | with a good token the request is served as that session's |
| Sessions.TokenStaysDead | src/auth.cpp:153-153 | over every run a token that is in no session is refused on every connection until a login sets it again |
| Sessions.StaysLoggedOut | src/connection.cpp:223-230 | over every run a connection that is logged out stays so until a login or a good token arrives on it |
| Sessions.LoggedOutForGood | src/connection.cpp:223-230 | after a logout and any run without a login under the old token, and without a login or good token on the connection, each request on it that carries the old token or none is refused and changes nothing |
| Sessions.TokenLives | src/auth.cpp:121-151 | over every run a token set by a login stands for that session on every connection until it is logged out, expires or is set again |
| Sessions.EventIsRun | src/connection.cpp:138-187 | every event of the server with sessions is a run of the system, so all theorems about runs hold for it |
| Sessions.RequestInIs | src/connection.cpp:95-109 | a JSON frame is the request it decodes to, a chunk frame that chunk at its own offset, and nothing else is a request |
| Deliveries.ChunkFrame | src/connection.cpp:100-107 | a chunk frame makes the step of that chunk, with the chunk's own id, offset and bytes |
| Deliveries.OtherFrame | src/connection.cpp:95-109 | a JSON frame makes the step of its request; bad JSON, short payloads and unknown kinds change nothing |
| Deliveries.ChunkIsWritten | src/connection.cpp:189-198 | a chunk that its upload accepts, cut in any way on the wire, is written at its offset and nowhere else |
| Deliveries.ContentArrives | client/client.cpp:248-261 | whatever has arrived of the client's chunks, in whatever pieces, the part is what it kept and the content from there on, and to the end when all has arrived |
| Deliveries.ServeArrivals | src/connection.cpp:56-109 | a connection that reads arrivals serves exactly the frames they complete |
| DiskSafety.HandleStep | src/connection.cpp:95-198 | a request writes at most one inode, its own upload's or a part's, never an object's; objects keep hashing to their names |
| DiskSafety.OtherConn | src/connection.cpp:95-198 | after a request every other connection's descriptors are in order and read what they read before |
| DiskSafety.PublishOk | src/transfer.cpp:45-105 | publishing makes the object hold the part's bytes on a new inode or keeps the file that already holds them, and changes no other object |
| References.DropRefSafe | src/transfer.cpp:122-136 | dropping a reference collects the object exactly when it was the last one, and touches no other content |
| References.ReleaseSafe | src/transfer.cpp:114-139 | releaseContentRef erases one key from the users' files and nothing else, and keeps every file readable |
| References.ReleaseExact | src/transfer.cpp:114-139 | it keeps references exact |
| References.AddRefSafe | src/transfer.cpp:107-112 | addContentRef keeps the invariant if and only if the object is there, and then sets one key |
| References.AddRefExact | src/transfer.cpp:107-112 | it keeps references exact |
| References.RenameFileSafe | src/transfer.cpp:170-184 | renaming a file keeps every file readable if and only if it is not renamed to itself (or has no content) |
| References.RenameFileMoves | src/transfer.cpp:170-184 | it moves one key of the users' files |
| References.RenameFileExact | src/transfer.cpp:170-184 | it keeps references exact if and only if it also lands on no other content |
| References.RenameOtherOk | src/transfer.cpp:580-587 | renaming anything but a file keeps every invariant and every file if and only if it lands on no file with content |
| References.IndexDirOk | src/connection.cpp:283-291 | mkdir keeps every invariant and every file if and only if its path holds no file with content |
| References.SweepSafe | src/transfer.cpp:141-168 | releasing any set of keys together erases exactly those keys and keeps every other file readable |
| References.SweepExact | src/transfer.cpp:141-168 | it keeps references exact |
| References.ReferencesAddUp | include/transfer.h:54-55 | the sizes of the reference sets of all stored objects add up to the number of files with content |
| Guards.ClearedObject | src/transfer.cpp:249-256 | a content survives the release of the file in its way if and only if that was not its only reference |
| Guards.InstantUploadOk | src/transfer.cpp:222-266 | an accepted instant upload sets the key to the stored content and is safe if and only if G1 holds; a refused one shows users nothing |
| Guards.FinishUploadOk | src/transfer.cpp:323-351 | an accepted upload_end sets the key to the part's bytes and keeps every invariant |
| Guards.RemovePathOk | src/transfer.cpp:544-570 | rm erases one file, or every file its directory query selects, and keeps every invariant |
| Guards.PerformOk | src/connection.cpp:138-198 | every request that is done makes its change under its exact guards; every refused request shows users nothing |
| Breaches.PutAgain | client/client.cpp:214-231 | in every exact state with the user logged in: putting a content with overwrite over the only file that has it gets a hit, the claim is accepted, and that file loses its object and cannot be downloaded (G1) |
| Breaches.InstantOverOnlyReference | src/transfer.cpp:222-266 | such a state exists for every content, user and path |
| Breaches.PutTwice | client/client.cpp:206-272 | from the empty server: a put and the same put again with overwrite, every request answered with success, end in a state where the file cannot be read |
| Breaches.RenameToItself | src/transfer.cpp:170-184 | a logged-in user's renaming of a file to itself is done and deletes its row; the shortcut still opens for download, and rm then collects the object (G2) |
| Breaches.RenameOverOther | src/transfer.cpp:170-184 | a logged-in user's renaming of a file over another content is done and leaves an object that no file carries, until that content is put to the same path again and removed (G3) |
| Breaches.MkdirOverFile | src/connection.cpp:283-291 | a logged-in user's mkdir on a file's path is done and makes its row a directory's; the shortcut still opens for download, and removing the directory takes it away and strands the object (G4) |
| Breaches.RenameDirectoryOverFile | src/transfer.cpp:580-587 | a logged-in user's renaming of a directory over a file's path is done and takes the content out of its row; the shortcut still opens for download (G5) |
| Downloads.OpenFindsFile | src/transfer.cpp:360-385 | download_begin succeeds exactly when the users' map has the key, and opens that content |
| Downloads.DownloadSeesPlainMap | src/connection.cpp:417-437 | after any run that respects G1, G2 and G4 to G7, with PathGuard answering from the directories, download_begin of (user, path) opens what the plain map holds there, or is refused as NotFound when it holds nothing; after any further run the descriptor still reads that |
| Downloads.ChunkIsSlice | src/connection.cpp:439-460 | for a chunk size between 1 and 2 MiB - 64 each reply is a non-empty slice of the content at the asked offset within the frame limit, and eof exactly at the end |
| Downloads.FetchIsExact | client/client.cpp:283-314 | with short reads and any steps of other connections between chunk requests, what get has written is a prefix of the content at open time, and as many requests as it has bytes are enough for all of it |
| Parts.WriteWindow | src/transfer.cpp:306-321 | a chunk is accepted if and only if its true, unwrapped end is within the total and its offset is no negative off_t |
| Parts.ChunkStaysInWindow | src/transfer.cpp:306-321 | an accepted chunk changes only the bytes it carries, all below the total |
| Parts.PerformMoves | src/transfer.cpp:286-351 | a request opens, ends or leaves alone each part, and changes only an inode it writes a chunk into or a part it empties at the begin |
| Parts.PartsStayApart | src/transfer.cpp:268-302 | in every reachable state no two parts share an inode |
| Parts.ReceivedWithinTotal | src/transfer.cpp:293-321 | over every run, with any number of writers, no upload has received more than its total |
| Parts.ChunkKeepsLength | src/transfer.cpp:306-321 | a chunk keeps what a sole writer has received equal to the file's length if and only if it holds bytes or does not lie beyond the end |
| Parts.SoleWriterReceivedIsLength | src/transfer.cpp:293-321 | over every run in which nobody else writes or empties the file and each own chunk meets that condition, received is the file's length |
| Parts.StepGrows | src/transfer.cpp:268-351 | one honest step of any connection keeps the part a prefix of the content and every holder within it |
| Parts.PartStaysPrefix | src/transfer.cpp:268-351 | over every run, however many uploads of one content are begun, cut off, resumed or finished on connections that hold the part together, the part stays a prefix of the content |
| Parts.StepKeepsPart | src/transfer.cpp:286-351 | a step that begins no upload to a part, writes nothing into it and ends none leaves its path, inode and bytes alone, whoever holds it |
| Parts.StartIsInOrder | src/transfer.cpp:25-31 | the empty server meets the premises of all these runs |
| Uploads.SendAllHolds | client/client.cpp:248-261 | after any number of chunks, with others at work in between who leave the part alone but may hold it, the part is what it held at the start and the content from there on |
| Uploads.SendAllGrows | client/client.cpp:248-261 | the same with others writing the same content into the part: it still holds a prefix of it |
| Uploads.InterruptedPut | client/client.cpp:241-266 | a put resumes at the length of the prefix that is there and leaves a prefix, interrupted or finished, with any number of other uploads of the content hanging or running on the same part |
| Uploads.InterruptedPuts | client/client.cpp:241-266 | any number of such puts leave the part a prefix of the content |
| Uploads.InterruptedPutExtends | client/client.cpp:241-261 | while others leave the part alone, an interrupted put leaves exactly what the part kept and some of the content from there on |
| Uploads.FinishedPut | client/client.cpp:241-266 | a put that finishes, with cut-off connections still holding the part, is accepted and publishes exactly the content if what it resumed was a prefix of it; otherwise it is refused and the part is gone |
| Uploads.FinishedPutShows | client/client.cpp:241-266 | after such a put the users' files are as before with the content at the put's key |
| Uploads.PutsFailAtMostOnce | client/client.cpp:241-266 | over any sequence of interrupted and finished puts of one content, with earlier connections still holding the part and other users at work all along, none fails from a part that holds a prefix, and at most one fails from any other part |
| Uploads.AttemptIsRun | client/client.cpp:241-266 | every such put is a run of the server |
| Sweeping.SweepOneMore | src/transfer.cpp:165-167 | releasing one more key after a sweep is the sweep of one more key, with the collections in between |
| Sweeping.LoopIsSweep | src/transfer.cpp:165-167 | the release loop amounts to one simultaneous sweep in whatever order the rows come |
| Sweeping.RemoveEmpties | src/transfer.cpp:544-562 | after rm of a physical directory no file row of the user lies under it if and only if its own row was no file row or none lay under it before |
| Sweeping.RecursiveRemove | src/transfer.cpp:544-562 | rm of a physical directory, whatever its row: an object survives if and only if a file that was not selected carries it, the subtree is empty under that condition, and the query selects exactly the subtree unless the name holds a wildcard |
| Trees.DirectoryGoes | src/transfer.cpp:544-562 | an rm of a physical directory that is done removes it, with everything below it, if and only if its row is no file row |
| Trees.DirectoryMoves | src/transfer.cpp:572-588 | a rename of a physical directory that is done moves it if and only if its row is no file row |
| RenamedDirectories.RmEmpties | src/transfer.cpp:544-562 | both sides together: rm takes the directory and every file under it away if and only if its row is no file row |
| RenamedDirectories.RemovedInNameOnly | src/transfer.cpp:547-553 | in every exact world rm of a directory whose row is a file row is done and takes away that row and nothing else |
| RenamedDirectories.RenamedDirectoryIsNotRemoved | src/transfer.cpp:580-587 | mkdir d, rename d to g, put g/f, rm g, from the fresh server on: every request succeeds and respects G1 to G7, and g and g/f are still there, for all names and contents of up to one chunk |
| Sweeping.ListingIsExact | src/transfer.cpp:486-542 | a stored path is listed if and only if the directory is its parent, whatever wildcards the directory's name holds |
| Sweeping.StoredListingIsExact | src/transfer.cpp:486-542 | over every run: a path in the index is a normal form after '/', and it is listed if and only if the directory is its parent |
| Sweeping.ListOfIsListed | src/transfer.cpp:518-541 | the loop returns each selected file row once, and nothing else |
| Like.PatternMeans | src/transfer.cpp:143-155 | '%' stands for any text, '_' for any character, a backslash for the character after it, and everything else for itself |
| Like.PrefixMatches | src/transfer.cpp:489-504 | a pattern prefix% without backslash matches every text with that prefix, even when the prefix holds wildcards |
| Like.PlainPrefixMatches | src/transfer.cpp:143-155 | without wildcards it matches nothing else |
| PathTexts.UnderIsDescendant | src/transfer.cpp:143-155 | the text prefix of the queries means: proper descendant, or anything under the root |
| Store.ChallengeInRange | src/transfer.cpp:199-217 | for every size and configured length the challenged range lies inside the object, and it is empty only for an empty object |
| Transfer.HonestClaimPasses | client/client.cpp:220-231 | whoever holds the object's bytes gets a hit and passes every check of the claim |
| Transfer.ClaimSpent | src/transfer.cpp:226-247 | an accepted claim spends its challenge and no other; the same claim is refused from then on |
| Keyspace.EncodeInjective | src/redis_store.cpp:150-223 | the six families of Redis keys are disjoint and each encoder is injective |
| Keyspace.MemberInjective | src/redis_store.cpp:181-188 | members userId, bar, path determine user and path, for negative ids and paths with bars too |
| Keyspace.MembersCount | src/redis_store.cpp:185-190 | SCARD counts keys |
| Keyspace.ParseOfPrint | src/redis_store.cpp:204-219 | every challenge comes back from its decimal text, for all 64-bit offsets and 32-bit lengths |
| Keyspace.OneKeyChanges | src/redis_store.cpp:76-148 | a command on one key of the flat keyspace of strings and sets is one update of one typed map, and no other map can notice it |
| Keyspace.AddedShows | src/redis_store.cpp:181-183 | SADD is one addition to one reference set |
| Keyspace.RemovedShows | src/redis_store.cpp:185-188 | SREM is one removal from one reference set, and the count that follows is the number of references left |
| Keyspace.DeletedShows | src/redis_store.cpp:175-179 | DEL of a string or a set is one removal from one typed map |
| Redis.RedisStore.Expire | src/redis_store.cpp:150-207 | when the server drops a key whose time is over, one session or one challenge goes and no object, size, reference or shortcut |
| Redis.RedisStore.SetSession | src/redis_store.cpp:150-152 | sets one session and its time limit, and nothing else in the typed view |
| Redis.RedisStore.GetSession | src/redis_store.cpp:154-156 | reads the typed map of sessions |
| Redis.RedisStore.DelSession | src/redis_store.cpp:158-158 | removes one session and nothing else |
| Redis.RedisStore.SetObject | src/redis_store.cpp:160-163 | sets one object's path and size and nothing else |
| Redis.RedisStore.GetObjectPath | src/redis_store.cpp:165-165 | reads the typed map of object paths |
| Redis.RedisStore.DeleteObjectMeta | src/redis_store.cpp:175-179 | removes one object's path, size and reference set and nothing else |
| Redis.RedisStore.AddRef | src/redis_store.cpp:181-183 | adds one key to one reference set and nothing else |
| Redis.RedisStore.RemoveRef | src/redis_store.cpp:185-188 | removes one key from one reference set and returns how many are left |
| Redis.RedisStore.SetPathMd5 | src/redis_store.cpp:192-194 | sets one shortcut and nothing else |
| Redis.RedisStore.GetPathMd5 | src/redis_store.cpp:196-198 | reads the typed map of shortcuts |
| Redis.RedisStore.DelPathMd5 | src/redis_store.cpp:200-202 | removes one shortcut and nothing else |
| Redis.RedisStore.SetChallenge | src/redis_store.cpp:204-207 | stores one challenge, for 120 seconds, and nothing else |
| Redis.RedisStore.GetChallenge | src/redis_store.cpp:209-219 | returns the stored challenge; no stored text fails to parse |
| Redis.RedisStore.DelChallenge | src/redis_store.cpp:221-223 | removes one challenge and nothing else |
| Service.TransferService.ResolveObjectPath | src/transfer.cpp:37-43 | the cached object path never disagrees with the computed one |
| Service.TransferService.CopyToObjectStore | src/transfer.cpp:45-90 | with short reads and partial writes the object file ends up with exactly the part's bytes, or is unlinked when the size differs |
| Service.TransferService.PublishObject | src/transfer.cpp:92-105 | with the object there at that size only the metadata is set again; otherwise the object gets the part's bytes, or the missing part or the wrong size is reported and no metadata is set |
| Service.TransferService.AddContentRef | src/transfer.cpp:107-112 | the five structures change as AddRef says |
| Service.TransferService.ReleaseContentRef | src/transfer.cpp:114-139 | the five structures change as Release says |
| Service.TransferService.ReleaseIndexedUnderPrefix | src/transfer.cpp:141-168 | whatever the order of the rows, the five structures change as one sweep of the selected files |
| Service.TransferService.RenameIndexedFile | src/transfer.cpp:170-184 | the five structures change as RenameFile says, also when both paths are the same |
| Service.TransferService.QueryInstant | src/transfer.cpp:186-220 | the hash loop in 64-bit arithmetic yields the challenge of ChallengeFor, issued exactly on a hit |
| Service.TransferService.InstantUpload | src/transfer.cpp:222-266 | state and refusal are those of Transfer.InstantUpload |
| Service.TransferService.BeginUpload | src/transfer.cpp:268-304 | refuses, or opens the part and resumes at its length, emptied when it is too long |
| Service.TransferService.WriteChunk | src/transfer.cpp:306-321 | refusal, bytes and received are those of Transfer.WriteChunk |
| Service.TransferService.FinishUpload | src/transfer.cpp:323-351 | state and refusal are those of Transfer.FinishUpload; the descriptor is closed in every case |
| Service.TransferService.BeginDownload | src/transfer.cpp:360-385 | opens the object of the key's content, or NotFound |
| Service.TransferService.ReadChunk | src/transfer.cpp:387-402 | returns the bytes of the held inode from the offset, cut at the size at open time |
| Service.TransferService.ListIndexed | src/transfer.cpp:486-542 | returns each file row of the user that Listed selects exactly once, with the row's md5 and size |
| Service.TransferService.RemoveUserPath | src/transfer.cpp:544-570 | the five structures change as RemovePath says |
| Service.TransferService.RenameUserPath | src/transfer.cpp:572-588 | the five structures change as RenamePath says |
| Serving.Connection.Serve | src/connection.cpp:189-460 | through its handlers OnLogin to OnDownloadChunk every request leaves the server in the state, and gets the reply, of the state machine's step; login keeps the session's text in Redis, logout deletes it, and no other request touches sessions |
| Serving.Connection.CheckToken | src/auth.cpp:132-151 | a token is accepted if and only if a readable session is kept for it, whose time then starts again; nothing else changes |
| Serving.Connection.HandleJson | src/connection.cpp:138-187 | a request with a token on a connection that is not logged in is the login step followed by the request's step, or Unauthorized |
| Serving.Connection.HandleFrame | src/connection.cpp:95-109 | a JSON frame is its request, the frame of a chunk is that chunk's step with its own id, offset and bytes, and every other frame is refused as BadRequest without effect |
| Serving.Connection.OnLogout | src/connection.cpp:223-230 | the connection has no session afterwards and its token is kept no longer |
| Serving.Connection.HandleFrames | src/connection.cpp:56-93 | the frames of one read are served in order |
| Client.CloudClient.SendChunks | client/client.cpp:248-261 | the loop ends with the part holding what it kept and the content from there on |
| Client.CloudClient.Put | client/client.cpp:206-272 | the result is determined by the start state (reference, upload, conflict, or failure on a stale part); unless it fails users then see the content at the path and nothing else changed, and every file stays readable exactly under G1 |
| Client.CloudClient.Get | client/client.cpp:274-320 | terminates with PathGuard's refusal, or with exactly what the users' map holds at the path, under any short reads, and changes nothing |
| Client.NoOverwriteProtects | client/client.cpp:220-266 | a put without overwrite leaves the file at its path alone if and only if its content is stored already or the upload fails, because upload_begin carries no overwrite flag |
| Client.FreshServerIsReady | client/client.cpp:206-212 | on a fresh server every user who logs in can put every content of legal size under every clean name: the premises of Put can be met |
| Client.QueryRequest | client/client.cpp:214-219 | the query hits exactly when the content is stored |
| Client.InstantOutcome | client/client.cpp:220-240 | the claim after a hit conflicts, or refers to the stored content, safely exactly under G1 |
| StorePaths.FilesApart | src/transfer.cpp:30-35 | for md5 texts of 32 characters without '/', and under every storage root, different objects are different files, so are different parts, and no object is a part |
| StorePaths.ObjectPlace | src/transfer.cpp:30-35 | the object of a text without '/' is kept under objects, its first two characters and the text, or beside objects when the text begins with ".." |
| StorePaths.ObjectInRoot | src/transfer.cpp:30-35 | it lies in the object root if and only if the text does not begin with ".." |
| StorePaths.DotsLeaveTheRoot | src/transfer.cpp:186-198 | the code checks the length only: such texts of 32 characters exist |
| StorePaths.SlashesCollide | src/transfer.cpp:272-278 | the code checks the length only: with '/' in them two different texts of 32 characters can be one file |
| Text.BaseNameIs | src/utils.cpp:166-172 | the text after the last '/' |
| Text.Split | src/utils.cpp:30-43 | the pieces hold no delimiter and joined with it give the text back |
| Paths.NormalizeLogical | src/path_guard.cpp:17-50 | the loop over components computes the recursive meaning of the component list |
| Paths.NormalizeFails | src/path_guard.cpp:17-36 | it fails if and only if there is a NUL, a component "~" or one that holds a backslash, or a prefix of components with more ".." than names |
| Paths.MeaningDefined | src/path_guard.cpp:22-38 | the meaning is defined exactly then, and has as many names as the depth says |
| Paths.DotDotCancels | src/path_guard.cpp:27-33 | ".." takes back exactly the name before it, anywhere in a path |
| Paths.NormalizeSplitsBack | src/path_guard.cpp:39-49 | the output splits back into exactly the names of the meaning, none of them empty, ".", ".." or "~", and none holding a slash, a backslash or a NUL |
| Paths.NormalizeIdempotent | src/path_guard.cpp:17-50 | normalising twice is normalising once |
| Resolution.Resolve | src/path_guard.cpp:64-117 | the loop on path texts, with lstat and realpath of a file system of directories, files and links, returns what Resolved finds there |
| Resolution.RootRefused | src/path_guard.cpp:64-70 | a root that is not absolute is Internal, a missing one NotFound, and then a path that cannot be normalised Forbidden |
| Resolution.FollowParts | src/path_guard.cpp:76-116 | the same for the loop alone, from a canonical root |
| Resolution.FollowIsCanonical | src/path_guard.cpp:76-116 | success means the canonical path of root/names with every position on the way canonical and inside the root; NotFound means the names lead nowhere without leaving the root; Forbidden means some prefix leaves it |
| Resolution.ResolveIsCanonical | src/path_guard.cpp:64-117 | with mustExist the result is r if and only if r is the canonical path and the way stays inside; without, r may also be a missing child of such a path |
| Resolution.InsideMeans | src/utils.cpp:61-67 | startsWithPath on texts is the prefix relation on names, so a sibling with a longer name is outside |
| Resolution.JoinPathText | src/utils.cpp:45-59 | joinPath appends one name |
| FileTrees.FileManager.RemoveRecursive | src/file_manager.cpp:100-126 | terminates, removes exactly the entries at or below the path, follows no link, and reports a missing target |
| FileTrees.FileManager.RemoveEntries | src/file_manager.cpp:105-117 | the loop over a directory's entries empties the directory and loses nothing outside it |
| FileTrees.FileManager.ListDirRecursive | src/file_manager.cpp:54-83 | appends each descendant (or each child) exactly once, parents before children, with its path relative to the listing's root and its own kind |
| FileTrees.EntryListed | src/file_manager.cpp:60-81 | one turn of the loop adds a child and everything below it, and keeps parents first |
| FileTrees.EntryDescribed | src/file_manager.cpp:70-80 | the entries a recursive call appends are those of the whole listing, with the right relative paths |
| Protocol.WriteU16Be | src/utils.cpp:217-220 | stores the two big-endian bytes and nothing else |
| Protocol.WriteU32Be | src/utils.cpp:205-210 | stores the four big-endian bytes and nothing else |
| Protocol.WriteU64Be | src/utils.cpp:187-196 | stores the eight big-endian bytes and nothing else |
| Protocol.ReadWords | src/utils.cpp:198-224 | the 16-, 32- and 64-bit readers return the value of the bytes |
| Protocol.WordValueOfBigEndian | src/utils.cpp:187-224 | reading undoes writing for every word that fits |
| Protocol.BigEndianOfWordValue | src/utils.cpp:187-224 | writing undoes reading |
| Protocol.WireLayout | src/protocol.cpp:14-24 | the frame byte by byte: magic, version, kind, flags and length with the high byte first, payload |
| Protocol.HeaderRefused | src/protocol.cpp:27-37 | a header is refused if and only if the magic is wrong, the version is not 1, or the length exceeds 2 MiB |
| Protocol.ChunkLayout | src/protocol.cpp:39-62 | the id, the offset with the high byte first, the bytes |
| Protocol.Encode | src/protocol.cpp:10-25 | filling the buffer in place yields the frame on the wire, or PayloadTooLarge |
| Protocol.ParseHeaderOfWire | src/protocol.cpp:27-37 | the header of every legal frame parses to its fields |
| Protocol.WireOfParseHeader | src/protocol.cpp:27-37 | only the bytes of that frame parse to that header |
| Protocol.EncodeChunk | src/protocol.cpp:39-52 | yields the wire bytes of the chunk, or the refusals for the id's length and the size |
| Protocol.DecodeChunkOfPayload | src/protocol.cpp:54-62 | decodeChunk undoes encodeChunk |
| Protocol.PayloadOfDecodeChunk | src/protocol.cpp:54-62 | encodeChunk undoes decodeChunk |
| Framing.FrameReader.OnRead | src/connection.cpp:56-93 | the loop handles exactly the frames that are complete in the buffer, in order, and closes at the first bad header |
| Framing.FrameReader.Arrive | src/connection.cpp:56-93 | the same for bytes appended to what was left |
| Framing.Receive | src/connection.cpp:56-93 | feeding a fresh reader one arrival after the other leaves it as Feed says, which the next theorems are about |
| Framing.CutsDoNotMatter | src/connection.cpp:56-93 | however a stream is cut into arrivals, the reader ends where one arrival of all of it would |
| Framing.LegalStreamDelivered | src/connection.cpp:56-93 | at every moment of a legal stream exactly the complete frames have been handled, a strict prefix of the next one waits, and it is below the read watermark |
| Framing.BadHeaderCloses | src/connection.cpp:69-73 | at the first refused header the reader closes: the frames before it have been handled and nothing after it ever is |
| Framing.WaitingBelowWatermark | src/connection.cpp:18-18 | whenever the reader waits, its buffer is below the high watermark, so the stream never stalls |
| Framing.ChunkArrives | src/protocol.cpp:39-62 | a chunk that one side encodes is the chunk the other side decodes, wherever the stream is cut |

## Left out

- PlainMap.RefinesPlainMap: assumes that MySQL, Redis and the disk do not fail in the middle of a handler; the updates of a handler are not transactional in the code. Md5 texts with '/' or with ".." in front are looked up as object names like all others, while the code then finds whatever file the path leads to.
- PlainMap.StoredIsKnown: the same limit; for such texts the code may hit a file that is no object.
- Runs.PublishedContentIsRight: its premise excludes, step by step, that a part being published has the md5 of a different stored content; for two contents with one md5 the code keeps or overwrites the first one.
- Client.CloudClient.SendChunks: the loop as a method runs against a server on which no other connection acts; interleavings are the subject of Uploads.SendAllHolds and Uploads.SendAllGrows.
- Client.CloudClient.Put: likewise no other connection acts during the call; interleavings are the subject of Uploads and Runs. A chunk the server refuses, which the contract excludes, is not followed up as the real client would.
- Client.CloudClient.Get: likewise; interleavings are the subject of Downloads.FetchIsExact.
- Service.TransferService.CopyToObjectStore: failures of open, read and write on a working disk are not modelled, nor is the refusal of a text too short to be an md5 in PublishObject.
- Service.TransferService.ListIndexed: the status text of a row, which is always "ready", is not modelled.
- Serving.Connection.Serve: the credential check of login is not modelled, an accepted login is the request; JSON texts are decoded outside the model, and so are commands other than those of Handlers.Request.
- Serving.Connection.CheckToken: the JSON text of a session is written and read by two parameters of the connection.
- FileTrees.FileManager.ListDirRecursive: size, modification time and mode of an entry are not modelled.
- Service.TransferService.ResolveObjectPath: object and part files are looked up by name in the model, which StorePaths justifies for md5 texts without '/' that do not begin with ".."; for others, and for texts shorter than two characters, which the code refuses and no caller passes, it is not modelled what the file system does.
- Resolution.Resolve: realpath has no limit on the number of links, and PATH_MAX and permissions are not modelled.
- Redis.RedisStore.Expire: keys carry their time limits, and no clock says when one is over: in the runs of Sessions a challenge or a session may expire at any event.
- Protocol.ParseHeaderOfWire: frame types are kept as bytes, so unknown types are legal frames here; HandleFrame refuses them.
- Trees.StepReaches: the users' roots hold directories only, as the server makes them; files and links that somebody else puts there are not covered (TreeBreaches.LinkedDirectoryRemoved), nor are failures of the file system other than those of MadeAt and MoveRefusal.
- What lstat, mkdir, rename and PathGuard answer are parameters of the requests in Runs and Serving; in Trees the directories give these answers. ensureDir has no part in them, since PathGuard has found the directory before.
- Moving descendants when a directory is renamed: the code does not do it, so the model's rename of a non-file changes no file key.
- The merge of physical entries and indexed files in ls, and stat.
- Registration, password check and the log of login attempts.
- Case-insensitive collation of MySQL and the 255-character prefix of its unique key: paths are compared exactly.
- Inodes are never given back; link counts, file modes and fsync have no effect in the model. The object path is unlinked, so reuse of an inode number could not be observed through a path either.
- MysqlStmt, the connection pool, libevent, hiredis, OpenSSL, jsoncpp, sockets, logging and configuration parsing.
- getObjectSize and refCount: nothing in the program calls them.
- copy_workers, copy_sleep_us and the status text: nothing in the program uses them.
- The shell, the GUI, the web page and the build files.
