# Verified model of frigate-xdna

frigate-xdna lets a Frigate installation use an AMD XDNA NPU: it prepares detection models, keeps a
content-addressed store of compiled artifacts, and serves inference through one resident native worker.
This project models the parts of it where correctness is hardest to see and proves what they promise, for
all inputs and over all runs.

1. **Wire protocol** (`Text`, `HeaderJson`, `HeaderRoundTrip`, `KeyNameCollision`, `Protocol`, `Framing`,
   `PythonPeer`, `JsonText`).  The native side prints headers by hand and reads them by substring search; the
   supervisor prints them with a JSON library in another order and spacing.  The specification is a printer and
   a "first occurrence, then scan" reader as functions; the index loops are proved to compute them, and it is
   proved exactly when the reader undoes either printer.  A strict reader of JSON texts, by contrast, is proved
   to get every header back from both.  Framing is proved over a pipe that may split and interrupt every read
   and write.
2. **Native worker** (`WorkerLoop`).  The LOAD/INFER/STATUS/SHUTDOWN loop with its in-place state; the
   invariant makes every index of the decoder safe, and over the whole loop a table is sent for exactly the
   requests that an accepted LOAD of their generation serves.
3. **Decoding and suppression** (`Ranking`, `Suppression`, `Detections`, `PostprocessYolo`, `DecodeYolo`,
   `DecoderAgreement`).  The flag-marking C++ loop, the shrinking Python list and the class-agnostic ancestor
   are proved against one definition of greedy suppression; from that follow what the tables promise in plain
   arithmetic on boxes, when the two decoders agree, and the decomposition by class.
4. **Graph rewrite** (`Graphs`, `Prepare`, `Collapsing`).  A small semantics of single-assignment operator
   graphs, and the compiler pass that collapses quantization chains and prunes dead edge nodes: that it
   preserves meaning, and that it does collapse them, link by link.
5. **Preparation jobs** (`RetryPolicy`, `Jobs`, `JobCalls`, `JobSafety`, `JobLineage`, `JobTimes`,
   `JobRestarts`, `JobManager`, `Backends`).  The job table as a state machine whose steps are the transactions
   and public calls, with the parts of a pump, of a failed publication and of a cache hit as separate steps;
   safety, integrity, lineage and what restarts leave behind over all its runs; when each call opens an attempt,
   and how long retries wait; and the classes that implement the steps in place.
6. **Artifact store** (`Store`, `StoreEvidence`, `DataDirectory`).  Publication and invalidation as ordered
   file-system steps that a crash may cut anywhere, and the recovery that follows, which a crash may cut as well;
   what either moves aside is kept.
7. **Worker switch and frontend** (`WorkerSwitch`, `Frontend`).  Activation with roll-back, children that must
   not be lost, session generations, quiescence, one reply per request.
8. **Stability journal** (`Stability`, `StabilityRun`).  The durable writes of a diagnostic run on every path,
   its uses of the device between them, and what any crash leaves to be detected.

Where the code works in place the model is a method over arrays or a class, proved against a function of the
old state; the theorems are lemmas about those functions.  `dafny verify dfyconfig.toml` checks the project.

Where the code does not keep a property under all circumstances, the result says exactly when it does:

- A string survives the native text format if and only if it has no control characters, and the supervisor's
  if and only if it is printable ASCII (`UnescapeEscape`, `UnescapePyEscape`); a dtype, which the reader takes
  raw, if and only if it has no quote and no backslash (`DtypeReadsBack`).  A member is found in the printed text if
  and only if no string printed before it, or none at all if it is left out, is its name or ends in a quote
  and its name (`FindMember`, `PyFindMember`).  If it is not found, what stands behind that string is read for it,
  which may be the same value: a header comes back if and only if its text is at most 16 KiB and every member
  is found or read as the same by such luck (`ReaderInvertsPrinter`, `ReaderReadsPython`).
  `NameInPathIsMisread` and `NameInPathIsHarmless` are one instance of each.  The JSON escapes are those of
  section 7 of RFC 8259 (`StringReads`, `PyStringReads`), but the native reader only drops the backslash.  The
  payload length is unsigned but read as signed, so it comes back exactly below 2^63.
- A compile thread that crashes ends its job if and only if no earlier poll of the job saw the launcher busy: the
  code keeps that result, a crash does not replace it, and the poll takes it for news and starts again
  (`OnePollDecides`, `CrashIsTakenForBusy`).  `CrashesNeverEnd` repeats this any number of times.
- A compile key has at most one live row until a cache hit is inserted while the key has a live row, and a
  call breaks this exactly then (`StepKeepsSafe`): the hit's row is inserted as queued and settled by a second
  write.  `TwoHitsAreBothLive` is such a run.  What holds over all runs is that no key is compiled by two
  backends at once (`RunsNeverCompileTwice`).
- Retry lineages stay chains if and only if no operator's retry acts on a row whose failure is in the table but
  not yet recorded, be it the compile's failure or that of the publication (`StepKeepsOk`).  Nothing in the
  code prevents that: the retry finds a failed row without a record, takes the path meant for rows of older
  versions, and the record written afterwards erases the mark of having been retried.
  `ARowCanForkUnguarded` is such a run.
- A row that a restart interrupts gets a record, and so may be retried, unless it is a retry whose scratch
  directory was swept (`UnprovenInterruptsWait`).  That one keeps its note and is stuck: no later call changes it
  or opens an attempt after it (`StuckForGood`, `StuckRefuses`).  `ARetryCanGetStuck` is such a run.
- A directory whose publication was cut before its row was inserted is adopted if and only if its source digest
  and recipe are not empty (`CrashConsistent`); an invalidation cut between its two steps leaves a row
  without a directory that recovery does not repair (`RunsStayConsistent`); and a recovery cut short is finished
  by the next one if and only if the cut is not between marking a live job and moving its scratch
  (`CutSweepConverges`, `CutJudgementConverges`).
- The two decoders select alike if and only if no best score equals the threshold, rank alike if and only if every
  tie has the lower class in the lower column or is between equal detections, and write equal rows if and only
  if the box lies inside the image (`SelectionsAgree`, `RankingsAgreeExactly`, `RowsAgree`).

Assumptions shared by the modules: SHA-256 and the compile key are injective; a rename, a row update and an
insertion are atomic; row times strictly increase and the locked-memory limit does not change within a process;
one thread pumps jobs.  The time, what the device, the compiler, the network and the operating system do, and
what a random choice yields are parameters of the steps.

## Model

| member | source | states |
|---|---|---|
| `HeaderRoundTrip.ReaderInvertsPrinter` | native/src/protocol.cpp:32-165 | for every header of a known message type, with integers in their C++ ranges and strings free of control characters: reading it back gives the same header if and only if its text is at most 16 KiB and each member survives, that is, is found, or what stands behind the string taken for its name is read as the same value; only a payload length of 2^63 or more comes back as none |
| `HeaderRoundTrip.UnescapeEscape` | native/src/protocol.cpp:32-49 | dropping the backslash undoes the escaping if and only if the string has no control character |
| `HeaderRoundTrip.FindMember` | native/src/protocol.cpp:80-93 | without control characters, the first occurrence of a quoted member name is that member, or there is none if it is left out, if and only if no string printed before it (none at all, if it is left out) is that name or ends in a quote and that name |
| `HeaderRoundTrip.StandsBehind` | native/src/protocol.cpp:80-93 | behind a string taken for a member's name the reader stands on the value of the next printed member, or on nothing |
| `HeaderRoundTrip.ReadsSeen` | native/src/protocol.cpp:80-112 | for every member, the string and the number that are read are those of the value it stands on, be it its own or another's |
| `HeaderRoundTrip.ReadTensor` | native/src/protocol.cpp:135-163 | if nothing collides with its name, the nested object is found, its shape comes back, and its dtype exactly if it has no quote and no backslash |
| `HeaderRoundTrip.DtypeReadsBack` | native/src/protocol.cpp:154-161 | the dtype, printed escaped but read raw, comes back if and only if it has no quote and no backslash |
| `KeyNameCollision.NameInPathIsMisread` | native/src/protocol.cpp:94-108 | with the word `class_count` as the only string the payload length is read for the class count, so the header comes back exactly if the two are the same |
| `KeyNameCollision.NameInPathIsHarmless` | native/src/protocol.cpp:80-93 | with the word `error_code` as the only string the header comes back, because a number stands where the error code is looked for |
| `Text.IntegerRoundTrip` | native/src/protocol.cpp:94-108 | printing an integer and parsing it gives it back exactly when it is in the range of the target type, and nothing otherwise |
| `Text.ParseReads` | native/src/protocol.cpp:94-108 | a number is read behind white space, with or without a sign, up to the first character that is no digit, and only within the range of its type |
| `HeaderJson.KindsHaveTwoNames` | native/src/protocol.cpp:11-28 | a message kind is read from its name in capital or in small letters and from no other text |
| `HeaderJson.ValueFound` | native/src/protocol.cpp:80-93 | in any text, behind the first quoted name the reader goes to the first colon and skips white space |
| `Protocol.JsonEscape` | native/src/protocol.cpp:32-49 | the character loop computes the escaping the theorems are about |
| `Protocol.HeaderToJson` | native/src/protocol.cpp:51-77 | the member-by-member printer builds the text of the specification, optional members left out when empty |
| `Protocol.ExtractString` | native/src/protocol.cpp:80-93 | the index-advancing scan reads the first string member of that name, and the empty string when there is none |
| `Protocol.ExtractInt64` | native/src/protocol.cpp:94-108 | the scan reads the first integer member of that name up to a comma or brace; failure when there is none or it is out of range |
| `Protocol.ExtractItems` | native/src/protocol.cpp:143-152 | the comma loop reads exactly the integers of a list, dropping what is no integer |
| `Protocol.ExtractTensorSpec` | native/src/protocol.cpp:135-163 | the nested object is read as specified, wherever its pieces are missing |
| `Protocol.JsonToHeader` | native/src/protocol.cpp:113-165 | the reader as a whole, with its early exits and what each leaves in the header, is the specified one |
| `Protocol.ValidateTensorSpec` | native/src/protocol.cpp:185-199 | accepts if and only if dtype is float32, the shape is [1,3,H,W] with dimensions 1 to 4096, at most 16 MiB, and the byte count is the shape's product times four |
| `Protocol.ValidateTensor` | src/frigate_xdna/models/contracts.py:27-53 | the Python validator accepts under exactly the same condition, though it bounds the product at another place |
| `HeaderJson.ParseSays` | native/src/protocol.cpp:113-122 | any text is read as a header if and only if it is at most 16 KiB, has a version and a known kind under either name of that member; what a failure leaves in the header is said for each |
| `HeaderJson.ParseReadsMembers` | native/src/protocol.cpp:113-165 | each member of a header that could be read is the one of its name, empty or zero if absent, with lengths below zero as zero and 32-bit fields cut |
| `Protocol.ValidHeaders` | native/src/protocol.cpp:167-183 | a header passes if and only if its version is 1, its kind known, its numbers not negative, its payload within the bound of its kind (256 MiB, 480 bytes or 16 MiB), its error message within 1024 and its path within 4096 characters, without two dots, and there for a LOAD |
| `Framing.PrefixRoundTrip` | native/src/protocol.cpp:232-246 | the four big-endian bytes of a length give the length back |
| `Framing.FrameSays` | native/src/protocol.cpp:228-239 | a frame is four bytes of the header's length, the most significant first, then the header and the payload |
| `Framing.DecodeSays` | native/src/protocol.cpp:241-259 | for any waiting bytes, a message is received if and only if its announced header of 1 byte to 16 KiB is there, readable and valid and its payload is there, and otherwise the error is the first of these that fails |
| `Framing.DecodeFrame` | native/src/protocol.cpp:228-259 | a sendable message is received as sent whatever bytes follow it, and exactly its own bytes are consumed |
| `Framing.FramesRoundTrip` | native/src/protocol.cpp:228-259 | the bytes of any sequence of sendable messages decode to that sequence |
| `Framing.ReadN` | native/src/protocol.cpp:217-226 | for every way the stream splits and interrupts the reads: success takes exactly n bytes and leaves the rest, failure means fewer were there |
| `Framing.WriteN` | native/src/protocol.cpp:207-216 | for every way the stream splits and interrupts the writes: success, exactly if the peer takes that many more bytes, appends the buffer |
| `Framing.SendMessage` | native/src/protocol.cpp:228-239 | a message is sent exactly if its header is within 16 KiB and the peer takes its frame; then the frame is appended, and an oversized header sends nothing |
| `Framing.RecvMessage` | native/src/protocol.cpp:241-259 | one receive computes exactly the decoding of the waiting bytes, errors and consumed bytes included |
| `Framing.ReceiveAll` | native/src/protocol.cpp:241-259 | repeated receives return the messages whose frames wait, in order |
| `Framing.Exchange` | native/src/protocol.cpp:207-259 | the exchange succeeds exactly if the messages can be sent, and then what is received through the splitting and interrupting pipe is what was sent |
| `PythonPeer.ReaderReadsPython` | src/frigate_xdna/runtime/ipc.py:41-62 | every request the supervisor builds from printable strings - other key order, other spacing, dtype before shape - is read by the native reader as the same header if and only if its text is at most 16 KiB and each member survives in the same sense |
| `PythonPeer.PyFindMember` | src/frigate_xdna/runtime/ipc.py:56-56 | the same exact condition for the supervisor's text: the first quoted name is the member, or absent, if and only if no string printed before it collides |
| `PythonPeer.PyReadsSeen` | src/frigate_xdna/runtime/ipc.py:41-62 | for every member of a request, what is read is the value the reader stands on, its own or another's |
| `PythonPeer.PyReadShape` | native/src/protocol.cpp:135-152 | the shape is read back whatever the dtype printed before it, even if that is the word `shape` |
| `PythonPeer.NoTensorInLoad` | native/src/protocol.cpp:135-163 | a string of a LOAD that is taken for `tensor_spec` does no harm: no shape and no dtype is read |
| `PythonPeer.NoKindInLoad` | native/src/protocol.cpp:125-131 | a path that is taken for `message_type` leaves no kind at all, whatever the digest: the fallback name does not help |
| `PythonPeer.UnescapePyEscape` | src/frigate_xdna/runtime/ipc.py:56-56 | the reader undoes the JSON library's escaping if and only if the string is printable ASCII |
| `PythonPeer.DecodePyFrame` | src/frigate_xdna/runtime/ipc.py:41-62 | a request frame written by the supervisor is received by the worker as sent, whatever follows |
| `PythonPeer.PyFramesRoundTrip` | src/frigate_xdna/runtime/ipc.py:41-62 | any sequence of supervisor requests decodes to that sequence on the native side |
| `PythonPeer.SendRequest` | src/frigate_xdna/runtime/ipc.py:41-62 | the bounds are checked before anything is sent; the request is sent exactly if it is within them and the peer takes the frame, which has the payload length filled in |
| `PythonPeer.RequestArrives` | src/frigate_xdna/runtime/ipc.py:27-62 | the request arrives exactly if it can be sent, with the supervisor's header and payload, through the splitting pipe |
| `JsonText.StringReads` | native/src/protocol.cpp:32-49 | a JSON reader (RFC 8259, section 7) gets every byte string back from its native text, control characters included |
| `JsonText.PyStringReads` | src/frigate_xdna/runtime/ipc.py:56-56 | and every string of Unicode characters from the supervisor's text, surrogate pairs included |
| `JsonText.NumberReads` | native/src/protocol.cpp:55-75 | a printed integer is a JSON number of that value, whatever stands behind it |
| `JsonText.HeaderIsJson` | native/src/protocol.cpp:51-77 | whatever the header, with no condition on its strings: its native text is one JSON object with exactly its members, in order |
| `JsonText.RequestIsJson` | src/frigate_xdna/runtime/ipc.py:41-62 | so is the supervisor's text of a request |
| `JsonText.RequestsSay` | src/frigate_xdna/runtime/native.py:104-184 | the JSON objects of LOAD, INFER and SHUTDOWN, member by member with their names |
| `JsonText.RepliesSay` | native/src/main.cpp:71-258 | the JSON objects of a RESULT with its table and of a RESULT or STATUS with an error, member by member with their names |
| `WorkerLoop.Model.Load` | native/src/model.cpp:44-93 | a failed load leaves no model and no mapping but the previous tensor descriptions; a successful one leaves all of them, and the mapping is there whenever a model is |
| `WorkerLoop.Worker.HandleLoad` | native/src/main.cpp:87-145 | a LOAD is accepted if and only if its arguments are good, the artifact opens, and the output shape and bytes fit the class count, with the code of each refusal; an accepted one sets generation, digest, class count, geometry and output buffer, a refused one none of generation, digest and class count, and leaves the old model only if the arguments were at fault |
| `WorkerLoop.Worker.HandleInfer` | native/src/main.cpp:153-251 | an INFER changes no loaded state and yields exactly one RESULT with a 480-byte payload: with the code of the first check that fails, in the source's order, and zeros, or the table of the decoder on an output buffer it indexes within bounds |
| `WorkerLoop.Worker.Handle` | native/src/main.cpp:71-258 | each message kind has its reply: type, generation, error code, request number and payload are determined by the message, the device and what is loaded, and so is what is loaded afterwards; only SHUTDOWN stops the loop |
| `WorkerLoop.Worker.Serve` | native/src/main.cpp:53-258 | one turn for each receive of the bytes in the pipe, up to SHUTDOWN or an error that is not answered; each reply has the type, generation, code and payload kind that the messages before it call for, each INFER one RESULT of 480 bytes, each misread message a STATUS naming the error; from a worker without a model a table answers exactly the INFERs that an earlier LOAD serves; the invariant holds at every loop head |
| `WorkerLoop.Worker.Step` | native/src/main.cpp:53-70 | one iteration consumes exactly one receive's bytes, answers it or ends the loop, and stops on exactly SHUTDOWN or an error about neither header nor payload |
| `WorkerLoop.RequestsAreHeard` | native/src/main.cpp:53-70 | the requests the supervisor writes are the messages the loop hears, each once and in order |
| `WorkerLoop.AcceptedShapesDoNotWrap` | native/src/model.cpp:109-126 | for the shapes the worker accepts, the wrapping size_t product is the true product |
| `WorkerLoop.TablesAreServed` | native/src/main.cpp:153-251 | over the whole loop, from a worker without a model: a message is answered with a table if and only if it is an INFER whose generation is that of an earlier accepted LOAD after which no LOAD with good arguments came, with finite input of the loaded model's shape and a forward pass that succeeds |
| `WorkerLoop.RepliesSay` | native/src/main.cpp:71-258 | what each reply says of the messages before it: STATUS whether a model is loaded, LOAD whether it was accepted, INFER which check failed, under the generation of the last accepted LOAD |
| `WorkerLoop.MisreadEnds` | native/src/main.cpp:57-69 | of the bytes that are no message, those end the loop whose header is complete and cannot be read, or is refused for anything but its payload length; all others are answered |
| `WorkerLoop.MisreadSays` | native/src/main.cpp:56-69 | bytes that are no message are answered by a STATUS of the worker's generation with the error |
| `WorkerLoop.GoodInputMeans` | native/src/main.cpp:169-205 | for 31-bit dimensions a tensor is taken if and only if it is finite, float32, of exactly the model's shape [1,3,H,W] with sides up to 4096, and has its 12 H W bytes, at most 16 MiB |
| `WorkerLoop.FitsMeans` | native/src/model.cpp:109-156 | for 32-bit dimensions an output fits C classes if and only if it is [4 + C, N], perhaps with a leading one, N is positive and the bytes are those of as many floats |
| `WorkerLoop.AcceptsMeans` | native/src/main.cpp:87-132 | a LOAD is accepted if and only if its path is not empty and has no two dots in a row, the class count is 1 to 4096, and the artifact opens to an output that fits it |
| `WorkerLoop.SizedMeans` | native/src/main.cpp:114-118 | the geometry guessed from the number of columns is that of a square image with that many cells of 8, 16 and 32 pixels |
| `Detections.IouInRange` | native/src/postprocess_yolo.cpp:52-59 | for boxes of non-negative size the denominator is positive, the quotient lies in [0, 1), and overlap is symmetric |
| `Detections.ApartShareNothing` | native/src/postprocess_yolo.cpp:52-59 | boxes without a common interior never overlap |
| `Detections.OverlapIsCommonBox` | native/src/postprocess_yolo.cpp:52-59 | others overlap if and only if the area of the box they have in common exceeds the limit times what they cover together, plus the epsilon |
| `Detections.NestedOverlap` | native/src/postprocess_yolo.cpp:52-59 | a box overlaps one inside it if and only if the inner area exceeds the limit times the outer one plus the epsilon |
| `Detections.ColumnLies` | native/src/postprocess_yolo.cpp:16-27 | a column's centre and size lie in the first four rows of the row-major buffer |
| `Detections.ScoreLies` | native/src/postprocess_yolo.cpp:16-27 | its score for class k lies in row 4 + k |
| `Detections.TakenColumns` | src/frigate_xdna/models/contracts.py:86-91 | a column is taken if and only if some class score is positive and not below the threshold (native) or above it (Python), as its first best class, with a box of its size around its centre |
| `Detections.CandidatesListed` | native/src/postprocess_yolo.cpp:16-33 | every column that is taken is listed once, in the order of the columns |
| `Detections.RowSays` | native/src/postprocess_yolo.cpp:68-82 | a row gives class, score and the box as shares of the image, top and left first, cut off at its edges |
| `Detections.FirstMax` | src/frigate_xdna/models/contracts.py:86-87 | argmax is the first index of the maximum |
| `PostprocessYolo.BestClass` | native/src/postprocess_yolo.cpp:17-21 | the strict comparison from zero finds the first class with the largest score, or none if no score is positive |
| `PostprocessYolo.Candidates` | native/src/postprocess_yolo.cpp:16-33 | the column loop selects the specified candidates, with every raw index in bounds |
| `PostprocessYolo.Suppress` | native/src/postprocess_yolo.cpp:40-61 | the flag-marking loop keeps exactly the greedy survivors up to the cap |
| `PostprocessYolo.PostprocessYoloRaw` | native/src/postprocess_yolo.cpp:9-87 | the table holds the normalised, clamped rows of the capped survivors of a score-sorted permutation of the candidates, in descending score, and zeros below |
| `DecodeYolo.Suppress` | src/frigate_xdna/models/contracts.py:93-103 | the shrinking list keeps exactly the greedy survivors up to the cap |
| `DecodeYolo.DecodeYoloRaw` | src/frigate_xdna/models/contracts.py:67-114 | an unsupported contract is refused; otherwise the table is that of the stable argsort, the survivors, and the second argsort, padded with zeros |
| `Suppression.SurvivorsUnique` | native/src/postprocess_yolo.cpp:46-61 | suppression has one solution: the only selection in which exactly the dropped candidates are hit by a kept one before them is the greedy one |
| `Suppression.ShrinkingKeepsSurvivors` | src/frigate_xdna/models/contracts.py:93-103 | taking the first and dropping what it hits keeps the same boxes as marking |
| `Suppression.UnkeptAreSuppressed` | native/src/postprocess_yolo.cpp:46-61 | every candidate not kept is suppressed by an earlier kept one, also in a run stopped by the cap there |
| `Suppression.SurvivorsPrefix` | native/src/postprocess_yolo.cpp:46-46 | the boxes kept from a prefix are a prefix of the boxes kept from all, so the capped result is a prefix of the uncapped one |
| `Suppression.KeptAreApart` | native/src/postprocess_yolo.cpp:46-61 | no kept box suppresses one kept after it |
| `Suppression.DroppedAreHit` | native/src/postprocess_yolo.cpp:46-61 | every candidate is kept, or suppressed by a kept one ranked before it, unless as many as allowed are kept |
| `PostprocessYolo.TableIsSuppressed` | native/src/postprocess_yolo.cpp:9-87 | for columns of non-negative size, in plain arithmetic: the rows fall in score; no two of a class have an intersection above the limit times their union; every candidate is a row, or has such an intersection with a row of its class ranked before it, unless there are as many rows as allowed |
| `DecodeYolo.KeptShareLittle` | src/frigate_xdna/models/contracts.py:93-107 | no two kept candidates of a class have an intersection above the limit times their union |
| `DecodeYolo.DroppedShareMuch` | src/frigate_xdna/models/contracts.py:93-107 | every candidate is kept, or has such an intersection with a kept one of its class ranked before it, unless there are as many as allowed |
| `DecodeYolo.SelectedAreProper` | src/frigate_xdna/models/contracts.py:86-91 | these two hold of every tensor whose columns have no negative size |
| `DecodeYolo.RankedByScore` | src/frigate_xdna/models/contracts.py:92-92 | the argsort goes by falling score, and by column where scores tie |
| `DecoderAgreement.SelectionsAgree` | native/src/postprocess_yolo.cpp:22-22 | for a positive threshold the two selections agree if and only if no best score equals the threshold; otherwise the native one has more |
| `DecoderAgreement.RankingsAgreeExactly` | native/src/postprocess_yolo.cpp:35-38 | whatever order the native sort gives to candidates it does not separate, its ranking is the stable argsort's, if and only if of any two candidates with one score the lower column has the lower class or both are the same detection |
| `DecoderAgreement.TiedRankingsDiffer` | src/frigate_xdna/models/contracts.py:92-92 | with a tie between a lower column of a higher class and a higher column of a lower class they never do |
| `DecoderAgreement.RowsAgree` | native/src/postprocess_yolo.cpp:67-83 | the normalised rows agree if and only if the box lies inside the image, because only the native side clamps |
| `DecoderAgreement.SecondSorts` | src/frigate_xdna/models/contracts.py:111-113 | the second sort of either decoder changes nothing |
| `DecoderAgreement.DecodersAgree` | src/frigate_xdna/models/contracts.py:67-114 | run on the same tensor, under those conditions and max_det 20, the two decoders produce the same 20x6 table |
| `DecoderAgreement.ClassesDecompose` | native/reference/worker-phase7.cc:118-135 | the boxes class-aware suppression keeps of a class are what class-agnostic suppression keeps of that class alone |
| `DecoderAgreement.ConfiguredClassesDecompose` | native/src/postprocess_yolo.cpp:40-61 | the same for the configured overlap test with and without class awareness |
| `Ranking.Sort` | native/src/postprocess_yolo.cpp:35-38 | sorting yields an ordered permutation |
| `Ranking.SortedUnique` | native/src/postprocess_yolo.cpp:35-38 | if any two elements are comparable, the ordered permutation is unique |
| `Ranking.Sortable` | native/src/postprocess_yolo.cpp:35-38 | every list has an ordered permutation |
| `Graphs.EvalSolves` | recipes/bf16-vaiml-v1/prepare.py:135-163 | evaluating a topologically ordered single-assignment graph satisfies every node's equation |
| `Graphs.SolutionIsEval` | recipes/bf16-vaiml-v1/prepare.py:135-163 | and nothing else does: any solution of the equations is the evaluation |
| `Prepare.Consumers` | recipes/bf16-vaiml-v1/prepare.py:76-81 | the table lists, for every name, the reading nodes in order, once per reading |
| `Prepare.FindInputChain` | recipes/bf16-vaiml-v1/prepare.py:84-99 | the walk finds the end of the single-consumer chain of edge nodes, if it has any link and its end is read; it terminates on every well-formed graph |
| `Prepare.ChainValue` | recipes/bf16-vaiml-v1/prepare.py:84-99 | if the links hand on their input 0, the end of the chain has the value of the graph input |
| `Prepare.RewirePreserves` | recipes/bf16-vaiml-v1/prepare.py:154-157 | reading the graph input instead of a name with the same value changes no value, and the graph stays in order |
| `Prepare.CollapsePreserves` | recipes/bf16-vaiml-v1/prepare.py:150-158 | collapsing the chains of all inputs, in any order, changes no value of any name, if each collapsed chain as a whole hands its graph input on |
| `Prepare.IdentitiesKeepValue` | recipes/bf16-vaiml-v1/prepare.py:84-99 | in particular chains whose single links are identities on input 0 do |
| `Prepare.GreatestUnique` | recipes/bf16-vaiml-v1/prepare.py:102-121 | the greatest self-supporting set of nodes is unique, so removal order does not matter |
| `Prepare.GreatestKeeps` | recipes/bf16-vaiml-v1/prepare.py:102-121 | it contains every node that is no edge node and every producer of a graph output |
| `Prepare.KeptWellFormed` | recipes/bf16-vaiml-v1/prepare.py:121-129 | the kept nodes still form a topologically ordered single-assignment graph over the kept initializers |
| `Prepare.PrunePreserves` | recipes/bf16-vaiml-v1/prepare.py:102-132 | pruning changes the value of no graph output |
| `Prepare.Graph.RewireReaders` | recipes/bf16-vaiml-v1/prepare.py:154-157 | the in-place loop rewires every reading of the tail and nothing else |
| `Prepare.Graph.PruneDeadEdgeNodes` | recipes/bf16-vaiml-v1/prepare.py:102-132 | the fixpoint loop terminates with the greatest self-supporting set, keeps its nodes in order, and keeps exactly the referenced initializers |
| `Prepare.Graph.RestoreFloatInputs` | recipes/bf16-vaiml-v1/prepare.py:135-163 | the whole rewrite: the nodes and initializers it leaves, the number of collapsed chains, and a graph that is well-formed with all outputs defined |
| `Prepare.RestorePreservesMeaning` | recipes/bf16-vaiml-v1/prepare.py:135-163 | for every operator semantics and all input values under which each collapsed chain hands its graph input on, every graph output has the same value before and after |
| `Collapsing.UsersCount` | recipes/bf16-vaiml-v1/prepare.py:76-81 | the consumer list of a name has one entry for each place where it is read and names exactly its readers |
| `Collapsing.InputChainMeans` | recipes/bf16-vaiml-v1/prepare.py:84-99 | a graph input has a chain with this tail if and only if there is a longest walk from it over edge nodes, each the only reader of what the one before puts out, to a name that something reads |
| `Collapsing.CollapseUnreads` | recipes/bf16-vaiml-v1/prepare.py:149-158 | collapsing a chain changes exactly the places that read its tail, to the graph input, and nothing reads the tail any more |
| `Collapsing.CollapsedReadings` | recipes/bf16-vaiml-v1/prepare.py:149-158 | after all inputs, in any order, every place that read a collapsed tail reads that chain's graph input, and every other place reads what it read |
| `Collapsing.TailStaysUnread` | recipes/bf16-vaiml-v1/prepare.py:149-158 | a collapsed tail stays unread whatever is collapsed after it |
| `Collapsing.CollapsedCounts` | recipes/bf16-vaiml-v1/prepare.py:148-158 | the reported number is that of the graph inputs that had a chain in their turn |
| `Collapsing.LinksStayIfNeeded` | recipes/bf16-vaiml-v1/prepare.py:102-132 | a link of a collapsed chain is kept if and only if what it or a link behind it puts out is a graph output |
| `Collapsing.FinishedUnreads` | recipes/bf16-vaiml-v1/prepare.py:135-163 | no node of the finished graph reads the tail of a collapsed chain |
| `RetryPolicy.FreshRecordWaits` | src/frigate_xdna/retry_policy.py:232-281 | a record just written for anything but an interruption is eligible exactly when it is transient, within the attempt limit, and its backoff of at least 30 s is over |
| `RetryPolicy.BackoffDoubles` | src/frigate_xdna/retry_policy.py:106-108 | the backoff is 30 s after a first attempt, doubles with each further one, and stays at 600 s |
| `RetryPolicy.Classified` | src/frigate_xdna/retry_policy.py:129-228 | what each failure is taken for, in the source's order of precedence; only interruptions, exhausted resources and timeouts are automatic, and only safety and permanent failures are never retried |
| `JobSafety.StepKeepsSafe` | src/frigate_xdna/compiler/jobs.py:47-94 | a call keeps at most one live row per key if and only if it is not a cache hit inserted while the key has a live row; at most one live row of a key with a backend, and no working backend behind a finished row, every call keeps |
| `JobSafety.RunsAreSafe` | src/frigate_xdna/cache/registry.py:329-337 | in every state of every run without such a hit - submissions, retries, both halves of a pump and of a hit interleaved with the rest, restarts - at most one row of a compile key is live |
| `JobSafety.RunsNeverCompileTwice` | src/frigate_xdna/compiler/jobs.py:47-94 | in every state of every run, such hits included, no two backends of a key work at once |
| `JobSafety.TwoHitsAreBothLive` | src/frigate_xdna/supervisor.py:799-812 | a run in which two cached prepares of one key interleave, and the key has two live rows between their writes |
| `JobSafety.LostSourceRefuses` | src/frigate_xdna/supervisor.py:269-288 | an automatic resume whose source bytes are gone opens nothing and is stamped on the failed row |
| `JobSafety.LostSourceRefusesOperator` | src/frigate_xdna/supervisor.py:269-288 | the same for an operator's retry |
| `JobSafety.FinishOpensNothing` | src/frigate_xdna/compiler/jobs.py:403-418 | the resume after a fresh failure record opens nothing within the shortest backoff, unless the backend reported an interruption: its unlocked check is safe for that long |
| `JobSafety.SubmitServes` | src/frigate_xdna/compiler/jobs.py:47-114 | a submission never adds a row when one of its key is live, and ends with a live row of the key that advances the ref unless its newest row may not be retried or is prepared with its artifact |
| `JobRestarts.UnprovenInterruptsWait` | src/frigate_xdna/supervisor.py:197-267 | over every run, a row that a restart interrupts is retried without an operator if and only if it got a record, nothing is inhibited, both boot tokens are known and equal, and it has attempts left; an operator may retry it if and only if it got a record, which all get but a retry whose scratch directory was swept first |
| `JobRestarts.SweptRetryIsStuck` | src/frigate_xdna/cache/store.py:163-183 | a restart that finds the scratch directory of a retry leaves that row interrupted with nothing but its note |
| `JobRestarts.StuckStays` | src/frigate_xdna/compiler/jobs.py:146-186 | no call changes such a row or opens an attempt after it |
| `JobRestarts.StuckForGood` | src/frigate_xdna/compiler/jobs.py:264-335 | for the rest of the run it stays as it is and nothing follows it |
| `JobRestarts.StuckRefuses` | src/frigate_xdna/compiler/jobs.py:47-114 | while it is the newest row of its ref and key, submitting and the operator's retry do nothing |
| `JobRestarts.ARetryCanGetStuck` | src/frigate_xdna/supervisor.py:237-267 | a run in which a timed-out compile is retried and the process dies during the retry |
| `JobRestarts.RunsAreNoted` | src/frigate_xdna/compiler/jobs.py:188-231 | over every run, a live row has no failure record, and a note never admits an operator's retry |
| `JobSafety.SafetyAndPermanentStayClosed` | src/frigate_xdna/compiler/jobs.py:264-286 | a quarantined, invalid or unsupported row is never opened again, automatically or by an operator, with its record or without one |
| `JobSafety.LatePublishIsAdopted` | src/frigate_xdna/supervisor.py:593-674 | a commit cut between directory and row is completed by adoption with the row the whole commit would have inserted, and a committed row never changes |
| `JobSafety.StepKeepsBound` | src/frigate_xdna/supervisor.py:616-674 | every call keeps each row, backend, published directory and artifact row of a key on the source digest of that key |
| `JobSafety.RunsAreBound` | src/frigate_xdna/supervisor.py:750-842 | the same over every run, with source revisions, late publishes, retries, crashes between directory and row, and adoption |
| `JobLineage.StepKeepsOk` | src/frigate_xdna/compiler/jobs.py:288-335 | a call keeps the lineages in order if and only if it is not an operator's retry of a row whose failure - mirrored from its backend, or of its publication - is in the table but not yet recorded |
| `JobLineage.RunsKeepLineage` | src/frigate_xdna/compiler/jobs.py:146-262 | over every run without such a retry the lineage invariant holds |
| `JobLineage.NewestIsChildless` | src/frigate_xdna/cache/registry.py:339-355 | the newest row of a ref and key has never been retried, so looking it up cannot reopen a consumed one |
| `JobLineage.RetriesAreBounded` | src/frigate_xdna/retry_policy.py:252-281 | every row has at most one successor, attempts are 1 to 3, and a lineage with r operator retries has at most 3 (1 + r) rows |
| `JobLineage.RetriesWaitAndCarry` | src/frigate_xdna/compiler/jobs.py:188-241 | an automatic attempt after a transient failure opens at least 30 s after that was recorded, at least 60 s if it was the second attempt, and every ref of the failed row follows it |
| `JobTimes.RetriesWait` | src/frigate_xdna/compiler/jobs.py:116-186 | over every run: between the call that records a transient failure and the call that opens the automatic attempt after it lie at least 30 s, at least 60 s before a third attempt |
| `JobCalls.RetryOpens` | src/frigate_xdna/compiler/jobs.py:116-186 | the pump's retry opens the next attempt after a failed row if and only if the row may be retried now, nothing is inhibited, no live row has its key, and its source bytes and backend are there; it stamps the row without these and else changes nothing |
| `JobCalls.RequeueOpens` | src/frigate_xdna/compiler/jobs.py:288-335 | an operator's retry opens a first attempt after the newest row if and only if that failed, is neither a safety nor a permanent failure, nothing is inhibited, no live row has the key, and source and backend are there |
| `JobCalls.SubmitOpens` | src/frigate_xdna/compiler/jobs.py:47-114 | a submission joins its live row, retries its failed one, leaves a prepared one with its artifact, and else joins a live row of the key or adds a first attempt |
| `JobCalls.CommitSays` | src/frigate_xdna/supervisor.py:593-674 | a commit puts a directory of the row's source under its key, with a row naming the same source unless it is cut short, and never changes an artifact that is there or another key |
| `JobCalls.RestartSays` | src/frigate_xdna/supervisor.py:184-267 | a restart interrupts each live row, leaves finished ones, forgets the backends, adopts of the directories without a row exactly the intact ones, and an interrupted row may be retried alone if and only if nothing is inhibited and its boot is proven to be this one |
| `JobCalls.RecordSays` | src/frigate_xdna/retry_policy.py:231-252 | a failure is recorded with its stage, attempt and class on top of the history, to be retried after 30 or 60 s if transient and with no wait otherwise |
| `JobLineage.StepOpensWell` | src/frigate_xdna/compiler/jobs.py:146-206 | an attempt opens only with no inhibition and no live row of its key, keeps ref and key, and takes over exactly the refs of the row it follows |
| `JobLineage.ARowCanForkUnguarded` | src/frigate_xdna/compiler/jobs.py:403-418 | a run of seven calls in which the excluded retry happens and the first row gets two successors: the late record erases the mark |
| `JobManager.Registry.FindJob` | src/frigate_xdna/cache/registry.py:339-355 | the newest-first scan finds the newest row of a ref and key |
| `JobManager.Registry.LiveJobForKey` | src/frigate_xdna/compiler/jobs.py:80-91 | the scan finds the oldest live row of a key |
| `JobManager.Manager.CarryAliases` | src/frigate_xdna/compiler/jobs.py:232-241 | every other ref of the failed row joins the new one |
| `JobManager.Manager.NewAttempt` | src/frigate_xdna/compiler/jobs.py:188-262 | the new row, its note, aliases and backend; a refused backend leaves only a stamp on the failed row |
| `JobManager.Manager.Consume` | src/frigate_xdna/compiler/jobs.py:171-186 | the failed row is marked as consumed by its successor |
| `JobManager.Manager.MaybeResume` | src/frigate_xdna/compiler/jobs.py:146-186 | the tables change as specified, with a successor exactly when the row is resumable and its backend can be built |
| `JobManager.Manager.Submit` | src/frigate_xdna/compiler/jobs.py:47-114 | the tables change as the specification of a submission says |
| `JobManager.Manager.RetryDue` | src/frigate_xdna/compiler/jobs.py:116-144 | the pump's pass over the failed rows is the specified retry of each in turn; it returns how many opened |
| `JobManager.Manager.Requeue` | src/frigate_xdna/compiler/jobs.py:288-335 | the tables change as the specification of an operator's retry says, with a successor exactly when there is a target |
| `JobManager.Manager.RecordTerminal` | src/frigate_xdna/compiler/jobs.py:354-370 | the row gets the failure record of its stage and attempt, on top of the row's history |
| `JobManager.Manager.Pump` | src/frigate_xdna/compiler/jobs.py:372-418 | a pump is the mirroring of the backend followed, for an unrecorded failure, by its recording and a retry if that is due |
| `JobManager.Reconciler.RecordHit` | src/frigate_xdna/supervisor.py:799-812 | a cache hit's two writes leave a prepared row, as its two steps say |
| `JobManager.Reconciler.Sweep` | src/frigate_xdna/cache/store.py:159-183 | exactly the live rows with a scratch directory become interrupted, without a record |
| `JobManager.Reconciler.ReconcileJobs` | src/frigate_xdna/supervisor.py:237-267 | the two loops interrupt every live row and record every interrupted row that has no record, and touch no other |
| `JobManager.Reconciler.Restart` | src/frigate_xdna/supervisor.py:184-185 | together they give each row what a restart is specified to give it |
| `Backends.FakeEndsOnTime` | src/frigate_xdna/compiler/fake.py:44-62 | however the time is cut into polls, the compile ends with the poll that reaches its duration, and waits for ever while the device is held |
| `Backends.OnePollDecides` | src/frigate_xdna/compiler/real.py:69-100 | a compile is over if and only if a poll decided it: one that saw the thread return anything but busy, or crash before any poll of this job had found the launcher busy; it is prepared exactly if that poll saw success, and no interruption is ever reported |
| `Backends.CrashIsTakenForBusy` | src/frigate_xdna/compiler/real.py:84-93 | a crash ends a compile under way if and only if no earlier poll of it found the launcher busy: the result kept from then is judged again |
| `Backends.CrashesNeverEnd` | src/frigate_xdna/compiler/real.py:84-93 | after one busy launcher a job whose thread crashes is queued again, however often it does |
| `Backends.FakeCompileJob.Poll` | src/frigate_xdna/compiler/fake.py:44-62 | one poll is one step of that machine |
| `Backends.RealCompileJob.Poll` | src/frigate_xdna/compiler/real.py:69-100 | the state, the thread and the kept result after each poll are what its history calls for |
| `Store.CrashConsistent` | src/frigate_xdna/supervisor.py:593-674 | however far a commit gets before a crash, after recovery its key is absent from directory and table or present in both with matching content; once the directory is in place it is adopted with the row the commit would have inserted if and only if its source digest and recipe are named |
| `Store.OthersUntouched` | src/frigate_xdna/cache/store.py:117-222 | neither a commit nor recovery changes the directory or row of another committed key |
| `Store.RecoveryConverges` | src/frigate_xdna/cache/store.py:140-222 | recovery is idempotent, and one interrupted between two entries is finished by the next |
| `DataDirectory.CutSweepConverges` | src/frigate_xdna/cache/store.py:159-183 | cut anywhere inside one scratch directory, recovery run again ends as if never cut, if and only if the cut is not between marking a live job and moving its scratch; then the scratch stays in place for good |
| `DataDirectory.CutJudgementConverges` | src/frigate_xdna/cache/store.py:185-221 | cut anywhere inside one artifact directory, recovery run again ends as if never cut |
| `Store.RecoveredKey` | src/frigate_xdna/cache/store.py:185-221 | a directory with a row is never touched, one without is adopted as its manifest says or moved away |
| `Store.RunsStayConsistent` | src/frigate_xdna/supervisor.py:739-748 | after any sequence of commits and invalidations cut anywhere and recovered from, directories and rows match, except keys whose invalidation was cut between its two steps and not repeated |
| `StoreEvidence.WriteIsAtomic` | src/frigate_xdna/cache/store.py:72-81 | until the rename a file is as it was, then it has the new bytes; only the temporary file is ever torn |
| `StoreEvidence.StagedInOrder` | src/frigate_xdna/cache/store.py:117-137 | the artifact is written first, the manifest after it, and what else was in the staging directory stays |
| `StoreEvidence.CollisionIsKept` | src/frigate_xdna/supervisor.py:605-613 | a directory in the way of a commit is found under the failures, with its content |
| `StoreEvidence.CommitGoesOn` | src/frigate_xdna/supervisor.py:593-674 | staging directory, artifact and row are there from and to exactly their steps, and no other scratch directory is touched |
| `StoreEvidence.CommittedIsStaged` | src/frigate_xdna/supervisor.py:593-674 | the directory put in place is the staging directory with both files in it |
| `StoreEvidence.DropKeeps` | src/frigate_xdna/supervisor.py:739-748 | a stale artifact is found under the failures before its row is dropped |
| `StoreEvidence.WorkIsKept` | src/frigate_xdna/cache/store.py:159-183 | recovery leaves the scratch of a finished job, strands that of any other known job, makes the rest orphans, and loses no content |
| `StoreEvidence.FailuresAreKept` | src/frigate_xdna/cache/store.py:159-183 | what was under the failures stays unless a directory of the same name replaces it |
| `StoreEvidence.JobsAreMarked` | src/frigate_xdna/cache/store.py:159-183 | a job is marked interrupted if and only if it was live and its scratch directory was there |
| `StoreEvidence.ArtifactsAreKept` | src/frigate_xdna/cache/store.py:185-221 | an artifact directory stays if and only if it has a row or holds the manifest of its own key, naming source and recipe, and the artifact it describes; any other is found in quarantine |
| `StoreEvidence.SweepGoesOn` | src/frigate_xdna/cache/store.py:159-183 | the steps of dealing with a live job's scratch: marked, what is in its way removed, moved |
| `StoreEvidence.JudgementGoesOn` | src/frigate_xdna/cache/store.py:185-221 | the steps of dealing with a directory that is not adopted: what is quarantined under its key goes first |
| `StoreEvidence.RunsSay` | src/frigate_xdna/supervisor.py:593-748 | after any run a directory has a row that names its digest, and a row without directory had an invalidation cut between its two steps and not completed since |
| `DataDirectory.DataDir.AtomicWrite` | src/frigate_xdna/cache/store.py:72-81 | the first steps of a write leave a torn or complete temporary file, and only the rename changes the file itself |
| `DataDirectory.DataDir.StageFiles` | src/frigate_xdna/cache/store.py:117-137 | both files are written one after the other into the staging directory |
| `DataDirectory.DataDir.PublishResult` | src/frigate_xdna/supervisor.py:593-674 | the commit performs its steps in the specified order and stops where it is cut; a committed key is left alone |
| `DataDirectory.DataDir.InvalidateArtifact` | src/frigate_xdna/supervisor.py:739-748 | the directory is moved before the row is dropped |
| `DataDirectory.DataDir.RecoverAll` | src/frigate_xdna/cache/store.py:140-222 | the two loops compute the specified recovery, whatever the order of the entries |
| `DataDirectory.DataDir.IngestBytes` | src/frigate_xdna/cache/store.py:84-101 | sources stay under the digest of their bytes, the same bytes are never rewritten, and foreign content is an error |
| `WorkerSwitch.NativeWorker.Load` | src/frigate_xdna/runtime/native.py:104-123 | a LOAD that is not confirmed changes neither generation nor loaded flag |
| `WorkerSwitch.NativeWorker.Infer` | src/frigate_xdna/runtime/native.py:125-144 | an answer counts only as an error-free RESULT of 480 bytes |
| `WorkerSwitch.NativeWorker.Retire` | src/frigate_xdna/runtime/native.py:146-178 | a child that does not exit stays alive |
| `WorkerSwitch.Supervisor.RetireOrTrack` | src/frigate_xdna/supervisor.py:1258-1267 | a discarded child is shut down, and becomes an orphan unless its death is confirmed |
| `WorkerSwitch.Supervisor.ActivateWorker` | src/frigate_xdna/supervisor.py:1281-1350 | success if and only if the artifact is usable, the child spawns and confirms the LOAD, and the active state is written; failure restores worker, generation, key and digest exactly; every live child is the worker or an orphan, and the worker's generation is the supervisor's |
| `WorkerSwitch.Supervisor.Swap` | src/frigate_xdna/supervisor.py:1312-1343 | the swap is taken back completely if the active state cannot be written |
| `WorkerSwitch.Supervisor.DropWorker` | src/frigate_xdna/supervisor.py:1352-1362 | no worker is left, its child is shut down, and it becomes an orphan unless its death is confirmed |
| `WorkerSwitch.Supervisor.WorkerInfer` | src/frigate_xdna/supervisor.py:1364-1394 | the status is determined by the exchange; a request reaches only the current live worker, with the supervisor's key; the worker is dropped, and the device inhibited, exactly if it died or failed with one of the five fatal codes, so a late answer costs only the request |
| `WorkerSwitch.Run` | src/frigate_xdna/supervisor.py:1243-1394 | over any sequence of activations, requests and drops every live child is the worker or an orphan, the generation counts exactly the activations that succeed, and a worker is loaded with the last successful target at that generation |
| `Frontend.SessionTable.InvalidateGeneration` | src/frigate_xdna/transport/sessions.py:65-69 | exactly the bindings of other generations stay |
| `Frontend.SessionTable.IsQuiescent` | src/frigate_xdna/transport/sessions.py:71-78 | true if and only if no binding of the generation was used within 5 s |
| `Frontend.Frontend.Receive` | src/frigate_xdna/transport/frigate_zmq.py:109-162 | an envelope is skipped, refused with its code, or queued with its deadline, exactly as its frames and the queue's room of 8 decide |
| `Frontend.Frontend.Work` | src/frigate_xdna/transport/frigate_zmq.py:164-196 | each queued request gets exactly one reply, to its sender, in order, the one its kind, its expiry and the state call for; an unexpired INFER, and nothing else, counts as accepted; nothing used within the quiescence window is dropped or switched away from |
| `Frontend.Frontend.HandleModelRequest` | src/frigate_xdna/transport/frigate_zmq.py:198-210 | available if and only if the identity is bound, and then the binding counts as used now |
| `Frontend.Frontend.HandleModelData` | src/frigate_xdna/transport/frigate_zmq.py:212-274 | the reply is determined by what preparation made of the bytes, by the active artifact and its quiescence, and by whether the artifact can be activated; unless it is loaded nothing changes, and then it is active and the sender bound to it |
| `Frontend.Frontend.HandlePrepared` | src/frigate_xdna/transport/frigate_zmq.py:276-328 | a served artifact is active and the sender bound to it; a switch raises the generation by one, drops every older binding and supersedes the old artifact |
| `Frontend.Frontend.Switch` | src/frigate_xdna/transport/frigate_zmq.py:309-328 | activation of another artifact, then the new generation, the dropped bindings and the superseded key, or no change at all |
| `Frontend.Frontend.TryActivate` | src/frigate_xdna/transport/frigate_zmq.py:330-359 | activation happens if and only if the device is free, the artifact usable and the supervisor's switch succeeds; otherwise nothing changes |
| `Frontend.Frontend.HandleInfer` | src/frigate_xdna/transport/frigate_zmq.py:361-425 | each accepted INFER is counted once as success, zero, timeout or refusal; it succeeds if and only if its sender is bound, it is in time, its tensor is well formed and the worker lives and answers well, and then on the binding's own key |
| `Frontend.CountElements` | src/frigate_xdna/transport/frigate_zmq.py:385-397 | the loop computes the product of the dimensions or notices one that is no integer |
| `Frontend.CheckTensor` | src/frigate_xdna/transport/frigate_zmq.py:376-397 | good exactly for a list of integer dimensions of 32-bit floats whose product is the number of elements sent |
| `Frontend.Run` | src/frigate_xdna/transport/frigate_zmq.py:109-425 | over every sequence of arrivals and turns: at most eight requests wait; whatever was received is answered once or waits; every binding is of the current generation and artifact; the queue, the addressees of all replies in order, and the kind of each reply are those the events determine; the INFERs counted as accepted are exactly those taken up in time, and they add up; everything received is answered exactly once or still queued, and every forwarded INFER reached a worker on its own binding's key or none |
| `Frontend.AdmitSays` | src/frigate_xdna/transport/frigate_zmq.py:109-162 | an envelope is refused for a header of more than 16 KiB or one that cannot be read, or when eight requests wait, and else queued for 25 s with its second frame; an empty delimiter in front makes no difference |
| `Frontend.DataReplySays` | src/frigate_xdna/transport/frigate_zmq.py:212-328 | model bytes are served if and only if they are prepared and their artifact is active or can be activated while none is active or no session was heard of lately; the code says which other case it is |
| `Frontend.Frontend.ReplySays` | src/frigate_xdna/transport/frigate_zmq.py:164-425 | the reply to an expired request by its header, and in time to each kind; a result if and only if the live worker sends a whole one without an error for a good tensor of a bound sender |
| `Frontend.Frontend.QuietMeans` | src/frigate_xdna/transport/frigate_zmq.py:280-308 | the active artifact may be replaced if and only if every session was last heard of at least 5 s before |
| `Frontend.ElementsMultiply` | src/frigate_xdna/transport/frigate_zmq.py:385-397 | the element count is multiplicative, one for no dimension, and spoilt by a dimension that is no integer |
| `Stability.OpensAreOpen` | src/frigate_xdna/observability/stability.py:177-200 | the table of open operations holds exactly the breadcrumbs that no later breadcrumb of the same operation closes or restarts |
| `Stability.DetectInterrupted` | src/frigate_xdna/observability/stability.py:177-206 | nothing if there is a result or no open operation; otherwise the open operation with the largest sequence number |
| `Stability.DetectedIsLastOpen` | src/frigate_xdna/observability/stability.py:177-206 | in a journal's numbering that is the last breadcrumb that is open |
| `Stability.ReadTimeline` | src/frigate_xdna/observability/stability.py:153-174 | lines that do not parse are skipped, all others kept |
| `Stability.Runs.LatestRun` | src/frigate_xdna/observability/stability.py:65-80 | the last run that has metadata |
| `Stability.Runs.CheckStartupLatch` | src/frigate_xdna/stability_runner.py:137-161 | refuses if and only if the latest run is interrupted and not acknowledged |
| `Stability.Runs.AcknowledgeRun` | src/frigate_xdna/observability/stability.py:246-291 | the latest run or a named one is acknowledged exactly if it was interrupted and is not yet; each refusal has its cause, and the latch is lifted only if it is the latest run |
| `Stability.LatestAmended` | src/frigate_xdna/observability/stability.py:65-80 | an acknowledgement does not change which run is the latest |
| `StabilityRun.CrashIsDetected` | src/frigate_xdna/observability/stability.py:209-243 | for every ordered run and every crash point, torn last line included: from the first breadcrumb to the result the run is found interrupted at its open operation and the latch refuses until it is acknowledged; with the result nothing is reported or refused |
| `StabilityRun.OpenInside` | src/frigate_xdna/stability_runner.py:293-417 | from a phase's start until its completion every prefix of the log has the phase open |
| `StabilityRun.UseIsReported` | src/frigate_xdna/stability_runner.py:293-417 | a crash at a use of the device that its phase's log covers is reported as that phase |
| `StabilityRun.OrderedSays` | src/frigate_xdna/stability_runner.py:451-498 | the timeline of such a run always says what it was doing |
| `StabilityRun.OrderedIsNumbered` | src/frigate_xdna/observability/stability.py:131-141 | the breadcrumbs of a run that is not finished are numbered from one on, so that the largest number is the last line's |
| `StabilityRun.Run.InferOnce` | src/frigate_xdna/stability_runner.py:247-273 | a request needs an open phase, is recorded as a use of the device in it, and is counted as completed, failed or timed out |
| `StabilityRun.Run.Activate` | src/frigate_xdna/stability_runner.py:297-310 | the activation needs an open phase and is recorded as a use of the device in it |
| `StabilityRun.Run.PhaseH1` | src/frigate_xdna/stability_runner.py:293-323 | on every path the phase's start is written, then nothing but the checkpoint, then its completion, and the activation and the probe use the device between the two, the probe only after a successful activation |
| `StabilityRun.Run.PhaseH2` | src/frigate_xdna/stability_runner.py:325-366 | the same for the calibration, with exactly the requests up to a stop or the first failure; passing if and only if no stop, failure or zero median occurred |
| `StabilityRun.Run.PhaseH3` | src/frigate_xdna/stability_runner.py:368-417 | the same for the steady phase and its checkpoints |
| `StabilityRun.CalibratingMeans` | src/frigate_xdna/stability_runner.py:332-350 | the calibration goes on exactly to the first stop, or the first request that fails, or its end |
| `StabilityRun.SteadyingMeans` | src/frigate_xdna/stability_runner.py:375-410 | the steady phase makes the requests of its turns up to a stop, or the first that fails, or its end |
| `StabilityRun.DeviceOpsMeans` | src/frigate_xdna/stability_runner.py:521-600 | the device is used first for activation and, if that worked, the probe; for calibration and the steady phase only if all before passed; and not at all without a prepared model |
| `StabilityRun.RunStability` | src/frigate_xdna/stability_runner.py:521-600 | on every path the durable writes come in the order the detection relies on, the device is used for exactly what the course calls for, a crash at any of these uses is reported as its phase, and the result is a pass if and only if every precondition and phase passed |
| `Text.Find` | native/src/protocol.cpp:81-83 | the first occurrence at or after an index, or -1 |
| `Text.TrimToken` | native/src/protocol.cpp:101-104 | the two trimming loops drop exactly the white space at both ends |
| `Protocol.FindValue` | native/src/protocol.cpp:81-86 | the index of the value after the first quoted name and colon, or -1 at the same places |
| `Protocol.ReadQuoted` | native/src/protocol.cpp:87-92 | the copying loop undoes the escapes up to the closing quote |
| `Protocol.ExtractShape` | native/src/protocol.cpp:137-152 | the bracketed list after the first quoted shape name |
| `Protocol.ExtractDtype` | native/src/protocol.cpp:154-161 | the raw text between the next two quotes after the dtype name |
| `Framing.Pipe.Read` | native/src/protocol.cpp:217-226 | a read takes a non-empty front of what waits, is interrupted finitely often, or finds the end |
| `Framing.Pipe.Write` | native/src/protocol.cpp:207-216 | a write appends a non-empty front of the buffer or is interrupted finitely often |
| `Framing.SendAll` | native/src/protocol.cpp:228-239 | all messages are sent exactly if each is sendable and the peer takes all their frames, which are appended in order |
| `PostprocessYolo.ColumnCandidate` | native/src/postprocess_yolo.cpp:22-32 | a column below the threshold or without a positive score is dropped, any other becomes a box around its centre |
| `PostprocessYolo.Mark` | native/src/postprocess_yolo.cpp:49-60 | the inner loop flags exactly the later boxes the kept one suppresses, besides those flagged before |
| `PostprocessYolo.WriteRow` | native/src/postprocess_yolo.cpp:68-82 | one row of the table is written, normalised and clamped, and no other changes |
| `DecodeYolo.Argsort` | src/frigate_xdna/models/contracts.py:92-92 | the result is a permutation of the indices, ordered by key, ties by index |
| `DecodeYolo.DropHits` | src/frigate_xdna/models/contracts.py:100-103 | exactly the indices the taken one suppresses are dropped |
| `DecodeYolo.Select` | src/frigate_xdna/models/contracts.py:86-91 | the columns whose best score exceeds the threshold, with their first best class |
| `Prepare.AddUses` | recipes/bf16-vaiml-v1/prepare.py:79-80 | one node's inputs are appended to the lists of their names |
| `Jobs.FindJob` | src/frigate_xdna/cache/registry.py:339-355 | the newest row of the ref and key, or that there is none |
| `Jobs.LiveFor` | src/frigate_xdna/cache/registry.py:329-337 | a live row of the key, or that there is none; rows without a key never count |
| `JobSafety.MirrorKeepsSafe` | src/frigate_xdna/compiler/jobs.py:372-401 | mirroring never brings a finished row back to life |
| `JobLineage.OpenKeepsOk` | src/frigate_xdna/compiler/jobs.py:188-262 | opening an attempt keeps the lineages in order if and only if the row is not the pump's pending one or nothing opens |
| `JobLineage.OneSuccessor` | src/frigate_xdna/compiler/jobs.py:174-186 | two rows with the same predecessor are the same row |
| `JobLineage.DepthBounded` | src/frigate_xdna/retry_policy.py:252-281 | the length of a lineage is at most 3 per operator retry plus the current attempt |
| `JobManager.Registry.RollBack` | src/frigate_xdna/compiler/jobs.py:243-262 | the row created last is gone, and what was joined to it |
| `JobManager.Registry.RefsForJob` | src/frigate_xdna/cache/registry.py:362-369 | the row's own ref and the joined ones |
| `JobManager.Manager.Create` | src/frigate_xdna/compiler/jobs.py:337-352 | a fresh row with its backend, or nothing when no backend can be built |
| `Store.PublishConsistent` | src/frigate_xdna/supervisor.py:593-674 | a commit, whole or cut and recovered from, keeps directories and rows in step |
| `Store.InvalidateConsistent` | src/frigate_xdna/supervisor.py:739-748 | an invalidation leaves its key dangling exactly if it is cut between its two steps |
| `DataDirectory.DataDir.SweepOne` | src/frigate_xdna/cache/store.py:159-183 | one scratch directory, step by step: kept for a finished job; otherwise marked, what is in the way removed, and moved |
| `DataDirectory.DataDir.JudgeOne` | src/frigate_xdna/cache/store.py:185-221 | one artifact directory, step by step: kept, adopted, or put in quarantine |
| `WorkerSwitch.NativeWorker.Ask` | src/frigate_xdna/runtime/native.py:86-102 | a dead child is never asked, a timeout is told from a broken channel, and each request has its own number |
| `Frontend.Frontend.TurnAway` | src/frigate_xdna/transport/frigate_zmq.py:138-162 | a request that is not queued is answered and counted |
| `Frontend.Frontend.Dispatch` | src/frigate_xdna/transport/frigate_zmq.py:171-196 | the reply and the counters by kind, or the timeout reply of the kind because it expired; polling and a forwarded INFER renew the binding, and nothing else touches the bindings but model bytes |
| `Frontend.Frontend.Forward` | src/frigate_xdna/transport/frigate_zmq.py:405-425 | reply and counters are determined by whether the worker lives and answers well, and the binding's last use advances |
| `Stability.Largest` | src/frigate_xdna/observability/stability.py:197-197 | the open breadcrumb with the largest sequence number |
| `Stability.Latest` | src/frigate_xdna/observability/stability.py:78-80 | the last run with metadata |
| `Stability.Runs.LoadReport` | src/frigate_xdna/observability/stability.py:209-226 | the interruption report is that of the parsed timeline and the presence of a result |
| `StabilityRun.Journal.Timeline` | src/frigate_xdna/observability/stability.py:131-141 | one numbered breadcrumb is appended |
| `StabilityRun.Run.PhaseE0` | src/frigate_xdna/stability_runner.py:276-291 | fails if and only if an inhibition is present or the model is not prepared |
| `StabilityRun.Run.Begin` | src/frigate_xdna/stability_runner.py:294-296 | the phase is open in the journal before anything of it happens, and its log block begins |
| `StabilityRun.Run.End` | src/frigate_xdna/stability_runner.py:301-302 | the phase is closed in the journal, and its log block is complete |
| `StabilityRun.Run.Phases` | src/frigate_xdna/stability_runner.py:573-586 | the phases in order, ended by a failure or an operator's stop; what they use the device for is determined, and each use happens with its phase open in the log |

## Left out

- Floating point: scores, boxes and overlaps are reals, so rounding, infinities and NaN are not modelled; finiteness checks are parameters.
- Sockets, SQLite, memory mapping, the FlexML runtime, subprocesses, ONNX parsing, HTTP downloads, the command line, console output and the vendor tools: their outcomes are parameters.
- The supervisor's reading of native replies is the JSON library's; JsonText stands for it, without fractions, exponents, literals and lone surrogates, which neither side prints.
- Strings in headers are sequences of bytes or of code points; no UTF-8 decoding is modelled.
- Protocol.HeaderToJson: the source writes eleven members in straight-line statements; the model writes them in a loop over the member table, in the same order and under the same conditions.
- Framing.ReadN: a hard read error and the end of the stream are one failure. How many more bytes the peer takes before it disappears is a parameter of the pipe.
- WorkerLoop.Worker.Serve: runs for as many receives as it is given device steps; a reply whose sending fails is not modelled, nor is termination by signal.
- PythonPeer.SendRequest: covers the three requests the supervisor sends, not arbitrary header dictionaries; the socket's send-all is a write loop.
- Prepare.RestoreFloatInputs: graph inputs are processed in any given order, of which alphabetical order is one; value_info, subgraphs and optional empty names are not modelled, and graphs that are not topologically ordered are outside the requirement. Idempotence is not claimed: a node dead at the start can hide a chain until after pruning.
- RetryPolicy: the regular expressions over compiler output are three booleans; the locked-memory limit is one.
- Jobs: a row's identifier is its place in creation order, so the aliases of a rolled-back attempt disappear with it; in the source they stay in the table and nothing reads them. Rows whose refs are looked up by last update, ref states, progress text and the console events are not modelled.
- JobLineage.RunsKeepLineage: holds of runs without the one kind of call named in its requirement; that requirement is exact for a step.
- JobSafety.RunsAreSafe: the same, for colliding cache hits.
- Jobs: the source's pump takes up a cache hit's row only if it selected it between the hit's two writes; the model allows it at any time after the second, which only adds runs.
- Jobs.Next: the retry a pump makes right after its own record looks for a live row and opens an attempt without a transaction; the model makes it one step, so a call of another thread between the two is not modelled. The record and that retry are two steps, and within 30 seconds of the record the retry opens nothing unless the backend reported an interruption (JobSafety.FinishOpensNothing).
- Store: not modelled are the size column of artifact rows, the quarantine marker files, pruning, and a JSON file that parses to no dictionary.
- Frontend.Run: the supervisor is activated by the frontend only; activation through the admin socket, which does not tell the frontend, is not modelled, nor is a registry failure after a completed switch, nor a header that is no JSON object.
- WorkerSwitch: request numbers are counted but a late reply after a timeout is not told apart, as in the source; children of the compile probe are not modelled.
- StabilityRun: percentiles, checkpoints' contents and console lines are left out; an exception that leaves a phase is a crash at that point; the console's reading of the worker's generation is no use of the device.
- Configuration, ref parsing, model views, deployment checks, garbage collection planning, redaction and the inhibition journal would only add small members.
