# MAVLink log manager of QGroundControl, modelled in Dafny

This project models the log capture and upload core of QGroundControl's
`MavlinkLogManager` (src/Vehicle/MavlinkLogManager.cc) and proves what it
does. The core has two parts.

- `MavlinkLogProcessor` reassembles a PX4 ULog file from MAVLink
  `LOGGING_DATA` chunks. Each chunk carries a 16-bit sequence number, the
  offset of the first message that starts in it (255: none) and its payload.
- `MavlinkLogManager` has three responsibilities.
  - It keeps the name-ordered list of log records (`MavlinkLogFiles`).
  - It runs a single-flight upload queue over that list.
  - It drives the start/stop protocol that captures a vehicle's log
    stream: commands, an acknowledgement timer with resends, and discarding
    a failed capture.

The files are:

- `ulog.dfy` (module `ULog`): the ULog pieces the reassembler relies on.
  These are the 16-byte file header, the 3-byte message header
  (`msg_size` little-endian, then `msg_type`) and the 5-byte `'O'`
  dropout message.
- `sequence_check.dfy` (module `SequenceCheck`): `_checkSequence` as a
  function. It is proved against a reference definition in modular
  arithmetic.
- `processor.dfy` (module `Processor`): `Chunk` says what one call of
  `processStreamData` does to the reassembly state and which writes it
  issues, and `WriteAll` says what the file makes of those writes. The class
  `LogProcessor` does the same in place, and its methods are proved to
  agree with both.
- `records.dfy` (module `Records`): the record class `LogFile` with its
  setters. It also holds the list functions: the name order, the insertion
  position, first selected, unselected / selected, and remove-one.
- `naming.dfy` (module `Naming`): the file names.
  - `%03d-yyyy-MM-dd-hh-mm-ss-zzz.ulg` for a new capture.
  - `_makeFilename`.
  - The base name of a path.
  - The `.ulg` → `.uploaded` sidecar replacement.
  - The default upload address.
- `manager.dfy` (module `Manager`): the class `LogManager`. The events are
  method calls: timer expiry, command acknowledgement, HTTP status of a
  finished upload, arming, vehicle change and stream chunk. Three effects
  outside the manager are fields that its methods update:
  - the commands sent to the vehicle (`sent`);
  - the files handed to the upload transport (`posted`);
  - the set of files in the log directory (`disk`).

Inputs from the environment are parameters:

- the time of day of a capture start (`ts`);
- whether `fopen` succeeds (`fopenOk`);
- the free space of the device, after which a write fails (`room`);
- the HTTP status of a finished upload.

Object pointers are Dafny references. A record that the source deletes
while something still points to it is, in the model, a record that is no
longer in the list.

### Behaviour of the code worth knowing

- **A chunk with no message start and nothing pending.** When a chunk says
  no message starts in it (offset 255) and nothing is pending, line 283
  removes the first 255 bytes of the chunk. Whatever follows is read as the
  start of a frame. A first chunk of 32 bytes with offset 255 writes its
  16-byte header and nothing more (`Processor.FirstChunkWithoutStart`), and
  a continuation chunk of up to 255 bytes that follows it writes nothing
  (`Processor.ContinuationWithoutStart`).
- **Flushing after a gap.** After a gap only one complete frame of the
  pending message is written (`_writeUlogMessage` at line 261). The rest of
  the pending message, a partial frame included, is discarded
  (`Processor.ChunkAfterGap`).
- **Resends of an unacknowledged command.** The try count is tested before
  its post-increment (line 768). The command is therefore resent on four
  expiries, and the fifth gives up (`Manager.ExpiriesFrom`).
- **A failed write.** A failed write does not end the call. The state
  (pending message, sequence) still moves as on success, and the following
  writes of the same call are suppressed (`Processor.ErrorSticky`,
  `Processor.LogProcessor.ProcessStreamData`).

## Model

| member | source | states |
|---|---|---|
| ULog.SplitFrame | src/Vehicle/MavlinkLogManager.cc:215-229 | The frame and the rest together are the input. A frame is split off exactly when there are more than 2 bytes and the announced length `b0 + 256*b1 + 3` fits. The frame then has that length. |
| ULog.SplitEncoded | src/Vehicle/MavlinkLogManager.cc:215-229 | Round trip: an encoded message followed by anything is split off exactly. |
| ULog.Dropout | src/Vehicle/MavlinkLogManager.cc:252-257 | The dropout record is 5 bytes, its announced length is its own length, and its type byte is 'O'. |
| ULog.DropoutIsMessage | src/Vehicle/MavlinkLogManager.cc:251-258 | The 5 dropout bytes `{2,0,79,min(drops,25)*10,0}` are a ULog 'O' message with a uint16 duration field. It is split off as one frame. |
| SequenceCheck.Check | src/Vehicle/MavlinkLogManager.cc:164-194 | The stored number stays in range. An accepted chunk becomes the last number; a refused one reports no loss and keeps the last number. |
| SequenceCheck.CheckFirst | src/Vehicle/MavlinkLogManager.cc:168-171 | Before any chunk, every sequence number is accepted with no loss and stored. |
| SequenceCheck.CheckModular | src/Vehicle/MavlinkLogManager.cc:164-194 | Acceptance matches a reference definition over the forward distance g mod 65536: 0 < g < 32768, or g == 32768 with a larger number. An accepted chunk reports g-1 lost chunks and becomes the last number. A refused one reports none and keeps the last number, so equal numbers are refused. |
| SequenceCheck.CheckDropsBounded | src/Vehicle/MavlinkLogManager.cc:164-194 | The reported loss lies in 0..32767, the stored number stays in range, and last + drops + 1 lands on the new number mod 65536. |
| Processor.Write | src/Vehicle/MavlinkLogManager.cc:198-211 | The file only grows, and every byte gained comes off the free space. When it grows, it gains the whole buffer and the write did not fail. |
| Processor.WriteAll | src/Vehicle/MavlinkLogManager.cc:198-211 | A call's writes only grow the file, and every byte gained comes off the free space. |
| Processor.ErrorSticky | src/Vehicle/MavlinkLogManager.cc:198-211 | Once a write of the call has failed, no later write of the call reaches the file. |
| Processor.WriteAllPrefix | src/Vehicle/MavlinkLogManager.cc:198-211 | The file gains a prefix of everything written, and all of it when no write fails. Every byte gained comes off the free space. |
| Processor.Take | src/Vehicle/MavlinkLogManager.cc:279 | `left(n)`: a prefix of the chunk, n bytes long or the whole chunk when it is shorter. |
| Processor.Lead | src/Vehicle/MavlinkLogManager.cc:276-282 | The lead-in writes nothing exactly when nothing is pending. Otherwise the pending message is written first, followed by at most the chunk's lead-in. |
| Processor.Rest | src/Vehicle/MavlinkLogManager.cc:283-285 | What follows the lead-in: the lead-in and the rest together are the chunk, and with offset 0 the rest is the whole chunk. |
| Processor.Boundary | src/Vehicle/MavlinkLogManager.cc:272-287 | The boundary handling never fails, keeps the earlier writes as a prefix, and changes only the pending message. |
| Processor.Body | src/Vehicle/MavlinkLogManager.cc:251-287 | After the header the chunk never fails, keeps the earlier writes, and changes only the pending message. After a gap, its first new write is the dropout record. |
| Processor.Chunk | src/Vehicle/MavlinkLogManager.cc:233-290 | An accepted chunk that succeeds has the header written. A failing chunk writes nothing, keeps the pending message and has no header. |
| Processor.ChunkRefused | src/Vehicle/MavlinkLogManager.cc:233-237 | A refused sequence number changes no state, writes nothing and reports success. |
| Processor.ChunkCountsDrops | src/Vehicle/MavlinkLogManager.cc:164-194 | The cumulative loss count grows by exactly the reported loss, and the last number is the check's. |
| Processor.ChunkHeader | src/Vehicle/MavlinkLogManager.cc:238-248 | An accepted first chunk fails exactly when it is shorter than 16 bytes, and then writes nothing. Otherwise its first 16 bytes are the first write, verbatim, and the header flag is set. |
| Processor.ChunkKeepsHeader | src/Vehicle/MavlinkLogManager.cc:238-248 | The header flag is never reset. |
| Processor.FirstChunkNoDropout | src/Vehicle/MavlinkLogManager.cc:168-171 | The first chunk of a stream reports no loss. It goes from the header straight to the boundary handling, with no dropout record and no flush. |
| Processor.ChunkAfterGap | src/Vehicle/MavlinkLogManager.cc:251-270 | After a gap, one dropout record comes first. Then at most one frame of the pending message is written and the rest is discarded. With offset 255 nothing more is written. Otherwise the skipped tail is dropped and at most one frame of the chunk follows. |
| Processor.LeadConserves | src/Vehicle/MavlinkLogManager.cc:276-285 | The pending message, the chunk's lead-in and the remainder together are the pending message followed by the whole chunk. |
| Processor.BoundaryConserves | src/Vehicle/MavlinkLogManager.cc:272-287 | The boundary handling hands every byte of the pending message and the chunk on, in order, to the file or to the new pending message. |
| Processor.ChunkConserves | src/Vehicle/MavlinkLogManager.cc:233-290 | A chunk without a gap that starts a message at its front or continues a pending one loses and duplicates no byte. Writes plus pending equal header + old pending + payload. |
| Processor.FirstChunkWithoutStart | src/Vehicle/MavlinkLogManager.cc:239-248 | A first chunk of 16 to 271 bytes with offset 255 and nothing pending writes exactly its 16-byte header, succeeds and leaves nothing pending. |
| Processor.ContinuationWithoutStart | src/Vehicle/MavlinkLogManager.cc:283-287 | With offset 255 and nothing pending, a chunk of at most 255 bytes writes nothing and leaves nothing pending. |
| Processor.LogProcessor.constructor | src/Vehicle/MavlinkLogManager.cc:109-158 | A created processor has an empty file and no chunk seen yet. Its fresh record is named after the file, is being written, has size 0 and has every other flag clear. |
| Processor.LogProcessor.IsValid | src/Vehicle/MavlinkLogManager.cc:137-141 | The processor is usable while its file is open. |
| Processor.LogProcessor.Close | src/Vehicle/MavlinkLogManager.cc:127-134 | The file is closed, and closing twice does nothing more. |
| Processor.LogProcessor.CheckSequence | src/Vehicle/MavlinkLogManager.cc:164-194 | The verdict, the loss and the new last number are `Check`'s. The loss count grows by the reported loss. |
| Processor.LogProcessor.WriteData | src/Vehicle/MavlinkLogManager.cc:198-211 | The file moves as one `Write`. The written count equals the file length and the record's size after every write. |
| Processor.LogProcessor.WriteUlogMessage | src/Vehicle/MavlinkLogManager.cc:215-229 | Writes the one complete frame `SplitFrame` finds, if any, and returns the rest. |
| Processor.LogProcessor.ProcessStreamData | src/Vehicle/MavlinkLogManager.cc:233-290 | The state becomes `Chunk(...).after`. The file receives `Chunk(...).writes` from a cleared error flag. The result is false exactly when the header was too short or a write failed. |
| Processor.LogProcessor.WriteBody | src/Vehicle/MavlinkLogManager.cc:251-287 | After the header, state and file move as `Body` says: dropout and flush after a gap, then the boundary. |
| Processor.LogProcessor.Join | src/Vehicle/MavlinkLogManager.cc:272-287 | State and file move as `Boundary` says. |
| Processor.LogProcessor.WriteNext | src/Vehicle/MavlinkLogManager.cc:276-287 | Writes the lead-in, then the next complete frame of the chunk. The rest is pending. |
| Processor.LogProcessor.WriteLead | src/Vehicle/MavlinkLogManager.cc:276-282 | Writes the pending message and the chunk's lead-in whole. Nothing is pending afterwards. |
| Records.LogFile.constructor | src/Vehicle/MavlinkLogManager.cc:38-56 | A new file's record is empty with every flag clear. |
| Records.LogFile.Existing | src/Vehicle/MavlinkLogManager.cc:38-56 | A found file's record has the file's size, and is uploaded exactly when its sidecar exists. |
| Records.LogFile.SetSize | src/Vehicle/MavlinkLogManager.cc:59-64 | Sets the size and nothing else. |
| Records.LogFile.SetSelected | src/Vehicle/MavlinkLogManager.cc:67-73 | Sets the selected flag and nothing else. |
| Records.LogFile.SetUploading | src/Vehicle/MavlinkLogManager.cc:76-81 | Sets the uploading flag and nothing else. |
| Records.LogFile.SetProgress | src/Vehicle/MavlinkLogManager.cc:84-89 | Sets the progress and nothing else. |
| Records.LogFile.SetWriting | src/Vehicle/MavlinkLogManager.cc:92-97 | Sets the writing flag and nothing else. |
| Records.LogFile.SetUploaded | src/Vehicle/MavlinkLogManager.cc:100-105 | Sets the uploaded flag and nothing else. |
| Records.LessTotal | src/Vehicle/MavlinkLogManager.cc:462 | Any two different names are ordered one way or the other by the name order. |
| Records.InsertPos | src/Vehicle/MavlinkLogManager.cc:453-469 | The position is that of the first name strictly greater than the new one, or the end. |
| Records.InsertKeepsSorted | src/Vehicle/MavlinkLogManager.cc:453-469 | Inserting there keeps an ascending list ascending. The list grows by exactly the new name, as a multiset. |
| Records.FirstSelected | src/Vehicle/MavlinkLogManager.cc:473-484 | The index of a selected record with none selected before it, or -1 when none is selected. |
| Records.UnselectedMembers | src/Vehicle/MavlinkLogManager.cc:488-498 | The kept records are exactly the unselected ones of the list. |
| Records.UnselectedDistinct | src/Vehicle/MavlinkLogManager.cc:488-498 | The kept records have no repetitions. |
| Records.RemoveFirstSelected | src/Vehicle/MavlinkLogManager.cc:490-495 | Removing the first selected record shortens the list by one, keeps the unselected records and takes that record off the front of the selected ones. |
| Records.RemoveOneAt | src/Vehicle/MavlinkLogManager.cc:515 | In a list without repetitions, `removeOne` of the record at k leaves everything around it in place. |
| Records.RemoveOneAbsent | src/Vehicle/MavlinkLogManager.cc:515 | `removeOne` of a record that is not in the list changes nothing. |
| Records.RemoveOneMembers | src/Vehicle/MavlinkLogManager.cc:515 | `removeOne` drops exactly that record and keeps the list free of repetitions. |
| Naming.Stamp | src/Vehicle/MavlinkLogManager.cc:147-151 | The stamp is 23 characters of digits and '-', with '-' at positions 4, 7, 10, 13, 16 and 19. Its seven digit groups read back as the year, month, day, hour, minute, second and millisecond of the time. |
| Naming.LogBaseName | src/Vehicle/MavlinkLogManager.cc:147-151 | A new capture's name is 27 characters: three digits that read back as the vehicle id, then '-', then the stamp of the time. |
| Naming.LogFilePath | src/Vehicle/MavlinkLogManager.cc:147-151 | The path is the directory, '/', the 27-character name and ".ulg". |
| Naming.FileName | src/Vehicle/MavlinkLogManager.cc:48 | The file name of a path: the suffix after its last '/'. It holds no '/', and it is the whole path or follows a '/'. |
| Naming.UpToDot | src/Vehicle/MavlinkLogManager.cc:48 | The prefix of a file name before its first '.'. It holds no '.', and it is the whole name or is followed by a '.'. |
| Naming.BaseName | src/Vehicle/MavlinkLogManager.cc:48 | `QFileInfo::baseName`: the prefix of the file name before its first '.', or the whole file name when it has none. It holds no '/' and no '.'. |
| Naming.ReplaceAll | src/Vehicle/MavlinkLogManager.cc:52 | `QString::replace`: a string that lacks the pattern's first character is left unchanged. |
| Naming.SidecarPath | src/Vehicle/MavlinkLogManager.cc:706 | The `.ulg` → `.uploaded` replacement leaves a path without any '.' unchanged. For a record's own file, `SidecarBesideLog` states the result. |
| Naming.DecimalRoundTrip | src/Vehicle/MavlinkLogManager.cc:146-150 | A zero-padded decimal of the name format reads back as its number. |
| Naming.NewLogName | src/Vehicle/MavlinkLogManager.cc:146-151 | A new capture's record is named `%03d-<stamp>`. The path the manager rebuilds from that name is the created path. |
| Naming.MakeFilename | src/Vehicle/MavlinkLogManager.cc:892-898 | The path is the directory, '/', the name and ".ulg", in that order. |
| Naming.SidecarBesideLog | src/Vehicle/MavlinkLogManager.cc:509 | The sidecar of a record's file is the same path with ".uploaded" for ".ulg", provided ".ulg" occurs nowhere else in the path. |
| Naming.EffectiveURL | src/Vehicle/MavlinkLogManager.cc:377-386 | The stored address is never empty: it is the given one, or the default when given none. |
| Manager.FilesMembers | src/Vehicle/MavlinkLogManager.cc:488-511 | A file belongs to a list of records exactly when it is the log file or sidecar of one of them. |
| Manager.FirstCandidate | src/Vehicle/MavlinkLogManager.cc:431-436 | The index of the first record that is selected and not uploaded while an email and address are set, or -1. No candidate comes before it. |
| Manager.QueuedPick | src/Vehicle/MavlinkLogManager.cc:431-436 | The record the scan picks once one more record is selected: the first record that is then selected and not uploaded with sending possible, or -1. |
| Manager.FirstCandidateUnique | src/Vehicle/MavlinkLogManager.cc:431-436 | A candidate with no candidate before it is the scan's first candidate, and with no candidate at all the scan finds none. |
| Manager.CandidateIsFirstSelected | src/Vehicle/MavlinkLogManager.cc:431-436 | With sending possible and no selected record uploaded, the scan picks exactly the first selected record. |
| Manager.NoCandidateWithoutAddress | src/Vehicle/MavlinkLogManager.cc:436 | Without an email or address nothing is ever picked. |
| Manager.Expiry | src/Vehicle/MavlinkLogManager.cc:766-792 | One timer expiry resends while fewer than 4 expiries came before and a vehicle is present: start if logging runs, stop otherwise. It gives up after 4, discarding exactly when logging runs. |
| Manager.ExpiriesFrom | src/Vehicle/MavlinkLogManager.cc:766-792 | From a reset count, expiries 1-4 resend the same command and the 5th gives up, discarding exactly when logging runs. |
| Manager.LogManager.constructor | src/Vehicle/MavlinkLogManager.cc:294-314 | The settings go through the setters (an empty address becomes the default). Nothing is running or uploading and the list is empty. |
| Manager.LogManager.SetEmailAddress | src/Vehicle/MavlinkLogManager.cc:357-363 | Stores the address. |
| Manager.LogManager.SetDescription | src/Vehicle/MavlinkLogManager.cc:367-373 | Stores the description. |
| Manager.LogManager.SetUploadURL | src/Vehicle/MavlinkLogManager.cc:377-386 | Stores the address, or the default for an empty one. |
| Manager.LogManager.SetEnableAutoUpload | src/Vehicle/MavlinkLogManager.cc:390-396 | Stores the flag. |
| Manager.LogManager.SetEnableAutoStart | src/Vehicle/MavlinkLogManager.cc:400-406 | Stores the flag. |
| Manager.LogManager.SetDeleteAfterUpload | src/Vehicle/MavlinkLogManager.cc:410-416 | Stores the flag. |
| Manager.LogManager.InsertNewLog | src/Vehicle/MavlinkLogManager.cc:453-469 | The record goes in at `InsertPos`, with everything else in place. An ascending list stays ascending and the list stays free of repetitions. |
| Manager.LogManager.DiscoverLog | src/Vehicle/MavlinkLogManager.cc:330-332 | A found file becomes a fresh record named after it, uploaded exactly when its sidecar exists, inserted in name order. |
| Manager.LogManager.Uploading | src/Vehicle/MavlinkLogManager.cc:420-423 | An upload is in flight exactly when there is a current record. |
| Manager.LogManager.GetFirstSelected | src/Vehicle/MavlinkLogManager.cc:473-484 | Returns `FirstSelected` of the list. |
| Manager.LogManager.RemoveLog | src/Vehicle/MavlinkLogManager.cc:501-518 | The record leaves the list (`removeOne`), and its log file and sidecar leave the directory. |
| Manager.LogManager.DeleteLog | src/Vehicle/MavlinkLogManager.cc:487-497 | Ends with the unselected records of the start, in their order, and none selected. The files of exactly the removed records have left the directory. |
| Manager.LogManager.DeleteFirst | src/Vehicle/MavlinkLogManager.cc:490-495 | One round: a record goes exactly when one is selected, the list shrinks, and the loop invariant `Deleting` is kept. |
| Manager.LogManager.DeleteAt | src/Vehicle/MavlinkLogManager.cc:494-495 | Removing the first selected record keeps `Deleting` with that record appended to the removed ones. |
| Manager.LogManager.CancelUpload | src/Vehicle/MavlinkLogManager.cc:522-530 | Every record is unselected except the current upload, which keeps its flag. |
| Manager.LogManager.UploadLog | src/Vehicle/MavlinkLogManager.cc:427-449 | The previous upload stops uploading. With k the first candidate, the records up to k are unselected and record k becomes current, uploading from 0 progress, with its file posted. Nothing after k is touched. With no candidate every record is unselected and there is no current upload. |
| Manager.LogManager.Scan | src/Vehicle/MavlinkLogManager.cc:431-447 | The loop of the scan, with the same per-record effect. |
| Manager.LogManager.Seek | src/Vehicle/MavlinkLogManager.cc:431-437 | The scan stops at the first candidate, or runs off the end, having unselected every record before it and nothing else. |
| Manager.LogManager.Unselect | src/Vehicle/MavlinkLogManager.cc:433 | Exactly the scanned record is unselected. |
| Manager.LogManager.Begin | src/Vehicle/MavlinkLogManager.cc:434-441 | The picked record is unselected and uploading from 0. Its file `_makeFilename(name)` is posted, and no other record changes. |
| Manager.LogManager.UploadFinished | src/Vehicle/MavlinkLogManager.cc:685-720 | The list loses the finished record exactly on success with delete-after-upload, and its files leave the directory then. On success otherwise its sidecar appears, and any other status leaves the directory alone. The next upload, if any, is in the list, uploading and not uploaded. It is the finished record again only after a failure, and a failure leaves that record's uploaded flag unchanged. At most one file is posted. |
| Manager.LogManager.RecordOutcome | src/Vehicle/MavlinkLogManager.cc:694-711 | On 200 with delete-after-upload, the current record and its files go and there is no current upload. On 200 otherwise, it is marked uploaded and its sidecar appears. Any other status changes nothing: the list, the directory and the current upload are kept, and the current record's uploaded flag is unchanged. |
| Manager.LogManager.CreateNewLog | src/Vehicle/MavlinkLogManager.cc:855-871 | The old processor is dropped. The result is whether fopen worked. On success a fresh processor has an empty file and a fresh record `%03d-<stamp>` being written, inserted in name order, and its file exists. On failure the list and directory are unchanged. |
| Manager.LogManager.OpenCapture | src/Vehicle/MavlinkLogManager.cc:858-866 | The processor of a new capture: a fresh processor whose file is `LogFilePath` of the vehicle id and time. Its fresh record is named `LogBaseName`, is being written, has size 0 and has every other flag clear. |
| Manager.LogManager.StartLogging | src/Vehicle/MavlinkLogManager.cc:538-549 | With a vehicle and a created log: the start command goes out, logging runs, the count resets and the timer arms, without checking whether logging already ran. A fresh processor replaces the previous one. Its record is named `%03d-<stamp>`, is being written and is spliced in at `InsertPos`, and its file joins the directory. Without a vehicle or when fopen fails, nothing of the protocol, list or directory changes. |
| Manager.LogManager.BeginLogging | src/Vehicle/MavlinkLogManager.cc:542-546 | The start command goes out, logging runs and the timer arms from zero tries. |
| Manager.LogManager.StopLogging | src/Vehicle/MavlinkLogManager.cc:553-581 | With a vehicle the stop command goes out, and no processor remains. A capture is closed as CloseCapture says. The upload state (current upload, posted files, and every record's selected, uploading and progress flags) becomes `AutoQueueState` of its record. Without a capture, logging, count, timer and upload state are unchanged. |
| Manager.LogManager.CloseCapture | src/Vehicle/MavlinkLogManager.cc:557-578 | The file is closed and its record stops being written. The upload state becomes `AutoQueueState` of the record. With auto upload the record ends selected unless the scan started its upload, as QueueUpload says. Without auto upload the upload state and the record's selection are unchanged. Logging is off. With a vehicle the count resets and the timer arms; without one both are kept. |
| Manager.LogManager.QueueCapture | src/Vehicle/MavlinkLogManager.cc:558-568 | The capture is closed, its record stops being written, and the upload state moves as AutoQueue says for that record. |
| Manager.LogManager.FinishCapture | src/Vehicle/MavlinkLogManager.cc:558-560 | The file is closed and the record stops being written. What `AutoQueueState` yields for the record is unaffected. |
| Manager.LogManager.AutoQueue | src/Vehicle/MavlinkLogManager.cc:562-568 | With auto upload the upload state becomes `QueueState` of the record, and the record is selected unless the scan started its upload. Without auto upload the upload state and the record's selection are unchanged. |
| Manager.LogManager.EndLogging | src/Vehicle/MavlinkLogManager.cc:570-578 | No processor remains and logging is off. With a vehicle the count resets and the timer arms; without one both are kept. The upload state is unchanged. |
| Manager.LogManager.QueueUpload | src/Vehicle/MavlinkLogManager.cc:564-567 | The upload state becomes `QueueState` of the record. The record is selected. With an upload in flight, the current upload, the posted files and every other flag are kept. Otherwise the scan picks `QueuedPick`: that record becomes current, uploading from 0 progress, and its file is posted. The records before it are unselected, and those after it keep their flags. With no candidate nothing is posted and every record is unselected. |
| Manager.LogManager.MarkSelected | src/Vehicle/MavlinkLogManager.cc:564 | Only the record's selected flag changes. The records the scan would now pick are exactly those `Queued` names for the record. |
| Manager.LogManager.ScanIdle | src/Vehicle/MavlinkLogManager.cc:426-448 | With no upload in flight the scan leaves the upload state as `ScanState` says. The first candidate becomes current with its file posted, and the flags move as `ScanFlags` says. |
| Manager.LogManager.DiscardLog | src/Vehicle/MavlinkLogManager.cc:838-851 | A capture is closed and its record and files are deleted. Logging is off and no processor remains. |
| Manager.LogManager.ProcessCmdAck | src/Vehicle/MavlinkLogManager.cc:766-792 | The count grows by one and the effect is `Expiry` of the old count: resend and rearm, give up, or stop for lack of a vehicle. Giving up while logging runs discards the capture: its record leaves the list and its files leave the directory. Every other case leaves list and directory alone. |
| Manager.LogManager.CommandLongAck | src/Vehicle/MavlinkLogManager.cc:818-834 | An acknowledgement of start or stop stops the timer. Only a failed start discards the capture: its record leaves the list and its files leave the directory. Otherwise list and directory are unchanged. |
| Manager.LogManager.MavlinkLogData | src/Vehicle/MavlinkLogManager.cc:796-814 | While logging runs the timer stops, and an open capture processes the chunk as `Chunk` says. On failure the capture ends and stop goes out, while the record stays listed and flagged as being written. Without an open capture nothing else changes. |
| Manager.LogManager.ArmedChanged | src/Vehicle/MavlinkLogManager.cc:875-888 | Without a vehicle nothing changes. With a vehicle and auto start, arming starts a capture. When fopen works, logging runs from zero tries with the timer armed, and a fresh record being written is in the list with its file in the directory. When fopen fails, no processor remains and list and directory are unchanged. Arming never touches the upload state. With auto start, disarming while logging runs sends stop and closes the capture as StopLogging says, with upload state `AutoQueueState` of its record. In every other case the commands, processor, logging, count, timer, list, directory and upload state are unchanged. |
| Manager.LogManager.Armed | src/Vehicle/MavlinkLogManager.cc:879-881 | With auto start a log is started as StartLogging says, and no record's upload flags change. Without auto start nothing changes. |
| Manager.LogManager.Disarmed | src/Vehicle/MavlinkLogManager.cc:882-885 | With logging running and auto start, stop goes out and the capture is closed as StopLogging says. Otherwise the commands, processor, logging, count, timer and upload state are unchanged. |
| Manager.LogManager.ActiveVehicleChanged | src/Vehicle/MavlinkLogManager.cc:737-762 | Losing the vehicle stops the capture without a stop command, leaving no processor. A capture is then closed and its record no longer written, with upload state `AutoQueueState` of its record. Count and timer are left alone. With no previous vehicle the processor is kept. With no previous vehicle or no capture, logging and the upload state are unchanged. The new vehicle, if any, becomes the active one. |
| Manager.InsertedSorted | src/Vehicle/MavlinkLogManager.cc:453-469 | Splicing a record in at `InsertPos` keeps an ascending list ascending. |

## Left out

- Qt signals, QML registration and the `QGCTool` plumbing: notification only.
- QSettings: the saved settings are constructor parameters, and the setters only store fields.
- The upload transport (`_sendLog`: multipart form, QNetworkAccessManager, proxy, abort signal). Starting an upload is modelled as appending the file path to `posted`. Its own checks (file exists, opens) are inside the transport and its result is ignored by the caller.
- The startup directory scan (`QDirIterator`, `mkpath`, `_loggingDisabled`). `DiscoverLog` covers one found file, and the caller walks the directory.
- Real file I/O. The directory is a set of paths. A removal always succeeds. The sidecar is created without modelling a failing `fopen`. A write either fits whole into the free space or fails whole, with no partial writes.
- The record size is unbounded, without the `quint32` truncation of a found file's size.
- `QTimer` timing. The timer is an armed flag, and each expiry is a method call.
- `QDateTime::currentDateTime`: the time is a parameter, with years up to 9999.
- `_uploadProgress`: floating-point division.
- `_dataAvailable` and every log message: diagnostics only.
- The name order compares Dafny `char`s, one by one. This agrees with `QString::operator<` on UTF-16 code units for characters of the Basic Multilingual Plane only.
- The `while` loops of `processStreamData` and `_writeUlogMessage` run at most once, so they are modelled as conditionals.
- Line 279 may read past the end of a short chunk. The model writes only the bytes the chunk has (`Processor.Take`).
- `Processor.LogProcessor.IsValid`: the processor is valid while its file is open. The record pointer is never null in the model.
- Naming.NewLogName: the source writes the new file through `path.toLatin1()` and `sprintf("%s")` (lines 147-151), while `_makeFilename` (lines 892-898) keeps the QString. The model has no text encoding, so the two paths agree only for a log directory of ASCII characters.
- Naming.LogFilePath: the path is a string of characters. The Latin-1 conversion of the directory on the way to `fopen` is not modelled, which matters only for a non-ASCII log directory.
- Manager.LogManager.CreateNewLog: the created file is named by `LogFilePath`, without the Latin-1 conversion. Its name matches the record's `_makeFilename` path only for an ASCII log directory.
- Manager.LogManager.UploadFinished: states the list, the directory, the next upload, the repost bound and that a failure leaves the finished record's uploaded flag alone. That a success marks the record uploaded, and that the next upload was selected, are stated by RecordOutcome and UploadLog rather than again here.
