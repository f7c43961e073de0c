# Duckpop, verified

Duckpop is an HTTP server that gives every TCP connection its own short-lived
DuckDB instance.  This project states what its core promises and proves it, for
every input, every run and every interleaving.

* **Connections** (`ConnProtocol` and the modules after it).  The manager and its
  clients as a transition system: a step is one critical section, or one call into
  the Opener, the Closer or the body of a loop over `Databases`.  `ConnProtocol.Act`
  follows the Go code branch by branch, locks included; a writer of the client map
  announces itself before it waits for readers, as `sync.RWMutex` does.  `ConnLocks`,
  `ConnRegistry`, `ConnBooks` and `ConnTheorems` hold the inductive invariant;
  `ConnResults`, `ConnProgress` and `ConnHistory` what follows from it; `ConnAnswers`
  and `ConnLoops` what `Conn` answers and what a loop over `Databases` visits; `ConnLimits`
  exactly when the promises hold that the code does not always keep; `ConnSolo`
  operations that run alone, and concrete runs.  The fields `phase`, `opens` and
  `closes` are history: no step decides anything by them.
* **The same classes for one thread** (`SyncMap`, `ConnManager`), updated in place.
* **Queries** (`QueryProtocol`, `QueryInterrupts`, `QueryDB`, `Hex`).  The query table
  with any number of handlers and interrupts racing, the table as a class, and query IDs.
* **Text and bytes** (`Interval`, `AvroDecimal`, `FormatParams`, `SizeText`, `Text`,
  `Bytes`, `Base64`).  Printers and encoders with readers that undo them.
* **Fast forms** (`Authn`, `RowPipeline`).  The header index against a scan of the
  entries; the row loop with its reused buffers against a map over the rows.

Where the code does less than its documentation suggests, the code is followed:

* `MaxDB` bounds the counter, which drops before the Closer runs
  (`internal/conndb/conndb.go:147-158`), so it bounds the instances only while no
  Closer is running (`ConnResults.LiveInstances`).  `ConnLimits.WithinCapIffNoOverrun`
  says which runs stay within it.
* A connection ID is free once the client map drops it, while the goroutine that
  closes its client still uses it.  `ConnLimits.DistinctIffNoReuse` says exactly when
  the IDs stay apart, and `ConnLimits.LiveNamesDistinct` what follows for instances.
  The private directory is named after the ID (`duckserver/duckserver.go:350-376`),
  so otherwise closing the old instance removes the directory of the new one.
  `ConnSolo.CapAndIDsOverlap` is a run where this and the excess over `MaxDB` occur.
* A `Conn` on a client whose close has finished opens an instance that is never
  closed and takes a slot for ever (`ConnLimits.LateForGood`, `ConnLimits.SlotsLost`;
  a run in `ConnSolo.LateConnLeaks`); `ConnHistory.AtQuiescence` says that nothing
  else leaks.
* A query ID drawn again while a `Close` of its former query is pending makes that
  `Close` delist the new query and cancel the old one twice
  (`QueryProtocol.ReissueBreaksOnce`); an interrupt of the new query that has looked it
  up by then ends without cancelling it (`QueryInterrupts.InterruptMisses`).
  `QueryProtocol.OnceIffNoCross` says exactly when cancellation happens once, and
  `QueryInterrupts.InterruptCloses` when an interrupt cancels.
* `writeRows` does not ask how the iteration over the rows ended: a success is the
  complete answer if and only if the iteration did not fail (`RowPipeline.WriteRows`),
  and `RowPipeline.TruncatedSuccess` is a success with a row missing.
* An authentication entry whose type is neither `basic` nor `bearer` is accepted
  when loaded; it matches nobody (`Authn.OtherKindsMatchNobody`).
* With colons in user names one user's credentials can be answered with the ID of
  another (`Authn.ColonCollision`); `Authn.AnsweredAsItself` says exactly when not.

Assumed of the surroundings: the Opener, the Closer and the body of a loop over
`Databases` return and do not call the manager back; `net/http` announces each
connection once; a free ID is eventually drawn.

## Model

| member | source | states |
|---|---|---|
| ConnResults.Accounting | internal/conndb/conndb.go:127-159 | in every reachable state `dbCount` is the number of clients, registered or not, whose instance is installed or about to be and not yet counted out; it stays within 0 and the cap, and the guard in `closeDB` always holds |
| ConnResults.LiveInstances | internal/conndb/conndb.go:127-159 | instances opened and not yet closed are `dbCount` plus those whose Closer is running plus those just opened and not counted; all but those being closed stay within the cap, so all of them do whenever no Closer is running |
| ConnLimits.AliveStep | internal/conndb/conndb.go:127-159 | from a state with instances within the cap a step exceeds it if and only if it is an Open that succeeds while the counter and the running Closers together reach the cap |
| ConnLimits.WithinCapIffNoOverrun | internal/conndb/conndb.go:127-159 | throughout a run the instances stay within the cap if and only if it has no such Open |
| ConnSolo.CapAndIDsOverlap | internal/conndb/conndb.go:87-108 | with one slot, a run reaches two live instances whose clients carry the same ID |
| ConnLimits.KeysStep | internal/conndb/conndb.go:57-108 | clients whose close has not finished have different IDs after a step, given that they did before, if and only if the step does not register an ID whose former client is still to be closed |
| ConnLimits.DistinctIffNoReuse | internal/conndb/conndb.go:57-108 | throughout a run these IDs are pairwise different if and only if no registration takes the ID of a client still to be closed |
| ConnLimits.LiveNamesDistinct | duckserver/duckserver.go:350-376 | without such a registration and without a `Conn` after its client's close, no two clients that carry an instance have the same ID in their ID fields, once these are set, so the directory that a Closer removes belongs to no other instance |
| ConnResults.MapsAgree | internal/conndb/conndb.go:57-69 | between any two steps every linked connection's ID leads back to its client, both maps are injective, `closeConn` always finds the client it drops, and a registered client's ID field is unset or its key |
| ConnResults.RequestFindsItsClient | internal/conndb/conndb.go:174-184 | a request carrying the ID of a connection still linked gets the client of that very connection |
| ConnResults.RequestServedIff | internal/conndb/conndb.go:174-184 | a request is served by a client exactly when that client holds the request's ID, from its entry in the map until `closeConn` removes it; with no such client the request ends |
| ConnAnswers.AnswerIsConnection | internal/conndb/conndb.go:201-216 | a `Conn` call answers with the connection of its client, and with one of the three errors if and only if the client has none |
| ConnAnswers.AnswerStep | internal/conndb/conndb.go:127-144 | an answer is settled exactly by its reason: the connection was there; this call's own Open made it; as many clients are counted as the cap allows; there is room and no opener; there is an opener and it failed |
| ConnAnswers.AnswersHaveReasons | internal/conndb/conndb.go:201-216 | whatever a call answers at the end of a run, some step of the run had the reason for it |
| ConnAnswers.OpenClientServed | internal/conndb/conndb.go:201-206 | a call that enters a client with a connection answers that connection, whatever else happens, and leaves maps, counter and shared locks alone |
| ConnResults.DatabasesYieldsOpen | internal/conndb/conndb.go:161-172 | what a loop over `Databases` is handed is registered under that ID, counted, not closed, with its connection |
| ConnLoops.LoopVisitsAll | internal/conndb/conndb.go:161-172 | in every run a loop that has left the map came to exactly the clients registered when it entered, each once under its ID, unless the body was given an instance and asked for no more; after that it came to none |
| ConnResults.ClientsStandStill | internal/syncmap/syncmap.go:80-88 | while any thread ranges over the clients, no step of any thread changes the map |
| ConnResults.DeadlockFree | internal/conndb/conndb.go:87-172 | in every reachable state with an unfinished operation some thread can step |
| ConnProgress.OperationsEnd | internal/conndb/conndb.go:57-232 | a run without new calls is at most as long as a bound fixed at its start plus two for each draw of an ID in use; when nothing can step at its end, every operation has ended |
| ConnProgress.CanFinish | internal/conndb/conndb.go:57-232 | from every reachable state a run without new calls, of a length bounded in advance, ends every operation, as long as fewer than 2^32 clients were made |
| ConnHistory.OneInstance | internal/conndb/conndb.go:201-216 | between two closes of a client at most one Open succeeds, none after a successful `Conn`, and all successful `Conn` calls from all threads return the same connection |
| ConnHistory.FieldsTogether | internal/conndb/conndb.go:201-232 | with the mutex free `db` is nil exactly when `conn` is; `Conn` never returns a nil connection without an error |
| ConnHistory.ClosedAtMostOnce | internal/conndb/conndb.go:218-232 | in every run an instance is closed at most once, only after it was opened, and is not closed exactly while its client carries it |
| ConnHistory.AtQuiescence | internal/conndb/conndb.go:87-108 | when all has ended both maps are empty, the instances closed are exactly those not opened on a closed client, and `dbCount` is 0 if and only if there is none of the latter |
| ConnHistory.NothingLeft | internal/conndb/conndb.go:201-232 | if no `Conn` ran after its client's close, everything opened was closed exactly once and nothing remains |
| ConnSolo.LateConnLeaks | internal/conndb/conndb.go:201-216 | a run after which everything has ended and an instance is open that no continuation closes; with one slot no continuation opens another |
| ConnLimits.LateOpensStay | internal/conndb/conndb.go:201-232 | in every reachable state no instance opened on a closed client is closed, and their number is at most `dbCount`, or one more while one is about to be counted |
| ConnLimits.LateForGood | internal/conndb/conndb.go:218-232 | an instance opened on a closed client is not closed by any continuation of the run |
| ConnLimits.SlotsLost | internal/conndb/conndb.go:127-144 | once as many such instances exist as the cap allows, no continuation opens anything |
| ConnManager.Manager.WithNewClient | internal/conndb/conndb.go:57-69 | registers under the first drawn ID that is free and links the connection to it, linked before or not; maps and counter stay consistent |
| ConnManager.Manager.CloseConn | internal/conndb/conndb.go:87-108 | forgets the connection and hands over its client, which is always found |
| ConnManager.Manager.ClientOf | internal/conndb/conndb.go:174-184 | finds the client registered under the context's ID, or says which of the two things is missing |
| ConnManager.Manager.Databases | internal/conndb/conndb.go:161-172 | hands out registered clients with an instance, each ID once: all of them, unless the loop body stops early, and then none after it did |
| ConnManager.Client.Conn | internal/conndb/conndb.go:201-216 | an open client answers from its field; otherwise the cap, the missing opener and the failed open are told apart and leave everything unchanged |
| ConnManager.Client.Close | internal/conndb/conndb.go:218-232 | empties the client, counts its instance out and closes it once |
| SyncMap.Map.LoadOrStore | internal/syncmap/syncmap.go:62-70 | stores only into a free key and returns what the key then holds |
| SyncMap.Map.LoadAndDelete | internal/syncmap/syncmap.go:72-78 | returns the value and removes the key |
| QueryProtocol.TableSound | internal/querydb/querydb.go:68-96 | whatever the interleaving and the IDs drawn, an entry names a query with that ID whose handler has not finished, and the table is empty when no handler runs |
| QueryProtocol.EntriesStay | internal/querydb/querydb.go:59-96 | no step replaces an entry, only a `Close` of a query with that ID removes one, and `Add` lists its query under an ID not in use |
| QueryProtocol.OnceIffNoCross | internal/querydb/querydb.go:88-124 | every query is listed and not cancelled, or cancelled or due exactly once, if and only if no `Close` of the run deleted another query's entry |
| QueryProtocol.CancelExactlyOnce | duckserver/duckserver.go:516-519 | when no ID with a pending `Close` is reissued: a listed query is not cancelled, none is cancelled twice, and in the end each has been cancelled once |
| QueryInterrupts.LookupFinds | duckserver/duckserver.go:668-683 | an interrupt goes on to close the query listed under its ID, and ends only when none is |
| QueryInterrupts.InterruptCloses | duckserver/duckserver.go:668-683 | in every run an interrupt that looked up a listed query leaves it unlisted; a cancel call is then made or due if and only if some close of that query found its ID listed, which is so unless another query's close deleted the entry |
| QueryInterrupts.InterruptCancelsOnce | internal/querydb/querydb.go:119-124 | when no close deletes another query's entry, a query so interrupted is unlisted and cancelled exactly once |
| QueryInterrupts.InterruptMisses | duckserver/duckserver.go:668-683 | a run with a reissued ID in which an interrupt ends and the running query it looked up is unlisted with no cancel call made or due |
| QueryInterrupts.CanStep | internal/querydb/querydb.go:59-96 | every handler and interrupt that has not ended can go on, to list a query with any ID not in use |
| QueryInterrupts.EverythingEnds | duckserver/duckserver.go:516-519 | handlers and interrupts take a number of steps bounded in advance; when none can step and an ID is free, all have ended |
| QueryProtocol.CancelsBalance | internal/querydb/querydb.go:119-124 | in every run, queries added are those listed plus cancel calls due and made |
| QueryProtocol.ReissueBreaksOnce | duckserver/duckserver.go:668-683 | a run in which an interrupt holding an old query delists a new one with the same ID, so that one query is cancelled twice and the other never |
| QueryDB.ParseUint | internal/querydb/querydb.go:28-37 | accepts exactly the non-empty hexadecimal numerals below 2^32 and tells range errors from syntax errors |
| QueryDB.ParseID | internal/querydb/querydb.go:28-37 | accepts exactly "Q_" and such a numeral, of any length and case |
| QueryDB.TextRoundTrip | internal/querydb/querydb.go:24-37 | every ID is printed with ten characters and parses back to itself |
| QueryDB.TextIsCanonical | internal/querydb/querydb.go:24-37 | an accepted text is what its ID prints as if and only if it has eight lower-case digits |
| Hex.SixteenDigits | internal/querydb/querydb.go:32 | the sixteen digits have their values in both cases |
| Hex.CaseFree | internal/querydb/querydb.go:32 | numerals that differ in the case of letters only stand for one number |
| QueryDB.Database.Add | internal/querydb/querydb.go:68-86 | lists a new query under an ID not listed and keeps every entry |
| QueryDB.Database.Remove | internal/querydb/querydb.go:88-96 | deletes by ID and says whether there was something to delete |
| QueryDB.Database.Queries | internal/querydb/querydb.go:98-106 | returns every listed query, one for each entry |
| QueryDB.Query.Close | internal/querydb/querydb.go:119-124 | cancels if and only if it delisted something |
| QueryDB.Interrupt | duckserver/duckserver.go:668-683 | answers 401, 400, 404 or 204, and cancels and delists exactly the named query in the last case only |
| Interval.IntervalToStr | internal/formatter/formatter.go:62-116 | prints the components that are not zero, "0" when there are none; all intermediate values fit int32 and int64 |
| Interval.Decomposition | internal/formatter/formatter.go:68-111 | the components add up to their field, have its sign, and stay below their radix |
| Interval.TextTokens | internal/formatter/formatter.go:62-116 | split at spaces, the text has one token for each non-zero component, in the order y, mo, d, h, m, s, ms, μs, each a sign, a decimal numeral without leading zeros and the letters; the components add up to the interval, with the sign and below the radix |
| Interval.SplitTimeUnique | internal/formatter/formatter.go:80-111 | there is only one such decomposition of a time |
| Interval.QuoTakes | internal/formatter/formatter.go:69-105 | division toward zero takes at most the dividend and leaves less than the divisor, with the dividend's sign |
| Interval.RoundTrip | internal/formatter/formatter.go:62-116 | reading the printed text gives back months, days and microseconds, for every interval |
| Interval.PrintingIsInjective | internal/formatter/formatter.go:62-116 | different intervals print differently |
| Interval.ZeroText | internal/formatter/formatter.go:112-114 | only the zero interval prints as "0" |
| AvroDecimal.HugeIntToDecimalBytes | internal/formatter/avro/avro.go:74-88 | null stays null, and a number gives its 17 bytes or overflows |
| AvroDecimal.HugeRoundTrip | internal/formatter/avro/avro.go:74-88 | over all integers, the bytes decode as two's complement to the number if and only if it lies in [-2^135, 2^135) |
| AvroDecimal.HugeOutside | internal/formatter/avro/avro.go:74-88 | for numbers outside that range: exactly which make the encoder panic, and what the bytes of the others decode to |
| AvroDecimal.HugeCoversTypes | internal/formatter/avro/avro.go:120-125 | HUGEINT, UHUGEINT and every number of 39 digits are encoded in 17 bytes that decode to them |
| AvroDecimal.Uint64ToDecimalBytes | internal/formatter/avro/avro.go:64-72 | null stays null, and a number gives a zero byte and its eight bytes |
| AvroDecimal.WidthsAgree | internal/formatter/avro/avro.go:64-88 | every uint64 decodes from its 9 bytes, and its 17-byte form is eight zero bytes and those |
| Base64.DecodeOfEncode | internal/authn/authn.go:93-98 | base64 with padding is undone by decoding, section 4 of RFC 4648 |
| Base64.EncodeMeans | internal/authn/authn.go:97 | a text is the encoding of some bytes if and only if it is canonical, in whole groups, padded, with unused bits zero, and decodes to them |
| Base64.TripleBits | internal/authn/authn.go:97 | four characters and the three bytes they decode to are the same 24 bits |
| Base64.Alphabet | internal/authn/authn.go:97 | the characters are those of table 1 of RFC 4648, in order |
| Bytes.TrimSpaceMeans | internal/authn/authn.go:101 | trimming removes all white space, as UTF-8, at both ends and nothing else |
| Authn.ReadAuthenticator | internal/authn/authn.go:158-189 | accepts exactly the lists without repeated IDs and invalid fields, names the first fault otherwise, and builds an index that answers every header as a scan does |
| Authn.LastMatchIsLast | internal/authn/authn.go:178-184 | the scan finds the last entry with the header, and nothing for the empty header |
| Authn.AuthorizedIff | duckserver/duckserver.go:420-433 | with authorization on, a request passes if and only if its header is non-empty and presents an entry |
| Authn.WhoPasses | duckserver/duckserver.go:420-433 | a request passes if and only if its header is "Basic " and the canonical base64 of an entry's name, colon and password, or "Bearer " and an entry's token without white space around it; it passes as the last such entry, and otherwise gets 401, or passes unnamed without authorization |
| Authn.ValidateMeans | internal/authn/authn.go:107-128 | an entry is valid exactly when the fields of its type are present and not empty, and each fault is named by the first field at fault |
| Authn.AuthorizedAs | duckserver/duckserver.go:424-428 | the response names the last entry that the header presents, with authorization on or off |
| Authn.BasicCollision | internal/authn/authn.go:93-98 | Basic entries share a header exactly when their joined credentials agree; with names free of colons, section 2 of RFC 7617, exactly when name and password agree |
| Authn.ColonCollision | internal/authn/authn.go:97 | for any two different IDs, an accepted list of two users with colons in which the credentials of the first are answered with the ID of the second |
| Authn.AnsweredAsItself | duckserver/duckserver.go:420-433 | an accepted entry's own header is answered with its ID if and only if no later entry has the same header |
| Authn.OtherKindsMatchNobody | internal/authn/authn.go:93-128 | an entry of another kind is accepted and no header selects it |
| Authn.KindsNeverCollide | internal/authn/authn.go:93-105 | entries of different kinds never share a header |
| FormatParams.FindAndCreate | internal/formatter/formatter.go:139-167 | the format's factory gets the parameters of the text; an unknown format and refused parameters are told apart |
| FormatParams.FoldNames | internal/formatter/formatter.go:145-155 | for arbitrary text a parameter is set exactly when a part carries its non-empty name |
| FormatParams.FoldLastWins | internal/formatter/formatter.go:145-155 | its value is that of the last such part, empty without a colon |
| FormatParams.RoundTrip | internal/formatter/formatter.go:139-155 | format and parameters printed in any order parse back to the same format and map |
| FormatParams.TextMeans | internal/formatter/formatter.go:139-155 | for every text, split at commas: the first part is the format, and a parameter has a value exactly when its name is not empty and the last part that names it says so, with a colon or, for the empty value, without |
| FormatParams.TextIsParts | internal/formatter/formatter.go:139-141 | every text is the join of comma-free parts |
| RowPipeline.CsvWriter.WriteHeader | internal/formatter/csv/csv.go:52-73 | writes the column names and picks each column's converter |
| RowPipeline.CsvWriter.WriteBody | internal/formatter/csv/csv.go:75-90 | writes one record that prints exactly these values, column by column as the column's database type says, or tells which of three things failed |
| RowPipeline.WriteRows | duckserver/duckserver.go:587-626 | the sink always holds the header and the conversions of the first rows in order; on success the column names and then, for every row delivered, each value in its column, null or as its type is printed; the result names exactly what stopped the writing, and a success is the whole answer if and only if the iteration did not fail |
| RowPipeline.CompleteIff | duckserver/duckserver.go:609-625 | the output for the rows delivered is a beginning of that for the whole result, and equal to it if and only if the iteration did not fail |
| RowPipeline.TruncatedSuccess | duckserver/duckserver.go:609-625 | a result of two rows whose iteration fails after one, for which `WriteRows` reports success |
| SizeText.FormatSize | internal/fileserver/listdir.go:116-128 | a plain number below 1024, else whole units of the largest unit that fits, without overflow; read with K, M, G and T as powers of 1024, the text is exact below 1024 and otherwise less than one unit below the size |
| SizeText.ShownNumber | internal/fileserver/listdir.go:121-127 | the number shown is at least 1, below 1024 unless the unit is T, and off by less than one unit |
| SizeText.Monotone | internal/fileserver/listdir.go:121-127 | larger sizes never show a smaller unit, nor a smaller number of the same unit |

## Left out

- Randomness: draws are a choice of the run, or a list that contains a free ID; that one is drawn eventually is assumed.
- Contexts and errors in the connection protocol: `conn.Close`, the errors of closing and the logging around them decide nothing and are not modelled.
- `Range` of the map: its loop is written out in `ConnManager.Manager.Databases`, and step by step in `ConnProtocol`.
- A nil Closer: the instance is then closed directly, which the history records as the same close.
- Go data races: the ID field of a client is written after the client is published, which the protocol keeps as a separate step, but reads and writes of plain fields are atomic here.
- Cancellation of contexts by anything but `Close`, and what a cancelled query does in DuckDB.
- FormatParams.FindAndCreate: `strings.ToLower` and the factories are parameters, because they are code that the formatter package does not decide.
- RowPipeline.WriteRows: printing of values other than intervals is a parameter, conversions that panic on a value of the wrong Go type are not modelled, quoting belongs to the CSV library, and the loop over the rows and its turn are methods of their own.
- Interval.IntervalToStr: the branch for values that are not intervals, which `fmt` prints; the block that the source repeats for each time unit is one method here.
- AvroDecimal.HugeIntToDecimalBytes: `big.Int` is an unbounded integer, and filling a buffer with it is written out.
- The other formatters, the Avro schema and container, date and time formats, templates.
- HTTP routing, redirects, headers, access logs, signals, the PID file, WebDAV and the browser pages.
- DuckDB itself, its settings and the queries run when an instance opens; nothing is claimed about the query that an authentication entry can carry.
