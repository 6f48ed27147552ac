/** The log manager (MavlinkLogManager): the ordered list of log records,
    the single-flight upload queue over it, and the start/stop protocol
    that captures a vehicle's log stream into a new record. Events (timer
    expiry, command acknowledgement, HTTP status of a finished upload,
    arming, vehicle change, stream chunk) are method calls; the commands
    sent to the vehicle, the uploads handed to the transport and the files
    in the log directory are fields the methods update. */
module Manager {
  import opened ULog
  import opened Records
  import opened Naming
  import opened Processor

  datatype Option<T> = None | Some(value: T)

  /** A command to the vehicle (Vehicle::startMavlinkLog / stopMavlinkLog). */
  datatype Command = StartLog | StopLog

  /** MAV_CMD_LOGGING_START and MAV_CMD_LOGGING_STOP of the MAVLink common
      message set. */
  const LoggingStartCommand: int := 2510
  const LoggingStopCommand: int := 2511
  /** The timer expiry that finds this many earlier expiries gives up. */
  const MaxResends: int := 4

  /** Source lines 664-669: only HTTP 200 counts as a successful upload. */
  function UploadSucceeded(httpCode: int): bool
  {
    httpCode == 200
  }

  /** The log file of a record and its sidecar marker. */
  function RecordFiles(dir: string, name: string): set<string>
  {
    {MakeFilename(dir, name), SidecarPath(MakeFilename(dir, name))}
  }

  /** The files of a list of records. */
  function Files(dir: string, s: seq<LogFile>): set<string>
  {
    if s == [] then {} else Files(dir, s[..|s| - 1]) + RecordFiles(dir, s[|s| - 1].name)
  }

  lemma MinusUnion<T>(a: set<T>, b: set<T>, c: set<T>)
    ensures a - b - c == a - (b + c)
  {
  }

  lemma FilesSnoc(dir: string, s: seq<LogFile>, r: LogFile)
    ensures Files(dir, s + [r]) == Files(dir, s) + RecordFiles(dir, r.name)
  {
    assert (s + [r])[..|s|] == s;
  }

  /** A file belongs to a list of records exactly when it is the log file
      or the sidecar of one of them. */
  lemma {:induction false} FilesMembers(dir: string, s: seq<LogFile>)
    ensures forall f :: f in Files(dir, s) <==> exists r :: r in s && f in RecordFiles(dir, r.name)
  {
    if s != [] {
      var s' := s[..|s| - 1];
      FilesMembers(dir, s');
      assert s == s' + [s[|s| - 1]];
      forall f | f in Files(dir, s)
        ensures exists r :: r in s && f in RecordFiles(dir, r.name)
      {
        if f in Files(dir, s') {
          var r :| r in s' && f in RecordFiles(dir, r.name);
          assert r in s;
        } else {
          assert s[|s| - 1] in s;
        }
      }
    }
  }

  // ---------------------------------------------------------------------
  // The upload queue (source lines 427-449)

  /** A record the scan hands to the transport: selected, not uploaded
      yet, and an email address and upload address are configured. */
  predicate Candidate(r: LogFile, canSend: bool)
    reads r`selected, r`uploaded
  {
    r.selected && !r.uploaded && canSend
  }

  /** The index of the record the upload scan picks, or -1. */
  function FirstCandidate(s: seq<LogFile>, canSend: bool): (k: int)
    reads s`selected, s`uploaded
    ensures -1 <= k < |s|
    ensures k >= 0 ==> Candidate(s[k], canSend)
    ensures forall i :: 0 <= i < |s| && (k < 0 || i < k) ==> !Candidate(s[i], canSend)
  {
    if s == [] then -1
    else if Candidate(s[0], canSend) then 0
    else
      var k := FirstCandidate(s[1..], canSend);
      if k < 0 then -1 else k + 1
  }

  /** Any index that is a candidate with no candidate before it, or -1 when
      there is none, is the one FirstCandidate finds. */
  lemma FirstCandidateUnique(s: seq<LogFile>, canSend: bool, m: int)
    requires -1 <= m < |s|
    requires m >= 0 ==> Candidate(s[m], canSend)
    requires forall i :: 0 <= i < |s| && (m < 0 || i < m) ==> !Candidate(s[i], canSend)
    ensures FirstCandidate(s, canSend) == m
  {
  }

  /** A record the scan hands to the transport once `rec` is selected as
      well. */
  predicate Queued(r: LogFile, canSend: bool, rec: LogFile)
    reads r`selected, r`uploaded
  {
    (r.selected || r == rec) && !r.uploaded && canSend
  }

  /** The index the upload scan picks once `rec` is selected as well: `rec`
      itself when it is a candidate then and comes before the first
      candidate of the list, otherwise that first candidate (or -1). It is
      the first record that is Queued, or -1 when none is. */
  function QueuedPick(s: seq<LogFile>, canSend: bool, rec: LogFile): (q: int)
    reads s`selected, s`uploaded, rec`uploaded
    ensures -1 <= q < |s|
    ensures q >= 0 ==> Queued(s[q], canSend, rec)
    ensures forall i :: 0 <= i < |s| && (q < 0 || i < q) ==> !Queued(s[i], canSend, rec)
  {
    var k := FirstCandidate(s, canSend);
    var j := IndexOf(s, rec);
    if j < |s| && !rec.uploaded && canSend && (k < 0 || j < k) then j else k
  }

  /** The upload flags of one record. */
  datatype Flags = Flags(selected: bool, uploading: bool, progress: real)

  /** The upload flags of each record of a list, in list order. */
  function FlagsOf(s: seq<LogFile>): (r: seq<Flags>)
    reads s`selected, s`uploading, s`progress
    ensures |r| == |s|
    ensures forall i {:trigger r[i]} :: 0 <= i < |s| ==> r[i] == Flags(s[i].selected, s[i].uploading, s[i].progress)
  {
    if s == [] then [] else [Flags(s[0].selected, s[0].uploading, s[0].progress)] + FlagsOf(s[1..])
  }

  /** The flags once the record at index j is selected; an index past the
      end, standing for a record not in the list, changes nothing. */
  function SelectAt(f: seq<Flags>, j: int): seq<Flags>
  {
    if 0 <= j < |f| then f[j := f[j].(selected := true)] else f
  }

  /** The flags after the upload scan picks index k, or none for -1: every
      record before the pick (every record, without one) is unselected, and
      the pick is unselected and uploading from zero progress. */
  function ScanFlags(f: seq<Flags>, k: int): seq<Flags>
  {
    seq(|f|, i requires 0 <= i < |f| =>
      if i == k then Flags(false, true, 0.0)
      else if k < 0 || i < k then f[i].(selected := false)
      else f[i])
  }

  /** The flags of s are f, when each record has the flags f gives it. */
  lemma FlagsAre(s: seq<LogFile>, f: seq<Flags>)
    requires |f| == |s|
    requires forall i :: 0 <= i < |s| ==> f[i] == Flags(s[i].selected, s[i].uploading, s[i].progress)
    ensures FlagsOf(s) == f
  {
  }

  /** What the manager shows of uploads: the record in flight, the files
      handed to the transport so far and the flags of every record. */
  datatype UploadState = UploadState(current: LogFile?, posted: seq<string>, flags: seq<Flags>)

  /** When sending is possible and no selected record is uploaded yet, the
      scan picks exactly the first selected record. */
  lemma {:induction false} CandidateIsFirstSelected(s: seq<LogFile>)
    requires forall i :: 0 <= i < |s| && s[i].selected ==> !s[i].uploaded
    ensures FirstCandidate(s, true) == FirstSelected(s)
  {
    if s != [] {
      CandidateIsFirstSelected(s[1..]);
    }
  }

  /** Without an email address or upload address nothing is ever sent. */
  lemma {:induction false} NoCandidateWithoutAddress(s: seq<LogFile>)
    ensures FirstCandidate(s, false) == -1
  {
    if s != [] {
      NoCandidateWithoutAddress(s[1..]);
    }
  }

  // ---------------------------------------------------------------------
  // The command retry timer (source lines 766-792)

  /** What one expiry of the acknowledgement timer does. */
  datatype TimerAction = Resend(cmd: Command) | GiveUp(discard: bool) | Stop

  /** The action of the expiry that finds `tryCount` earlier expiries. */
  function Expiry(tryCount: int, running: bool, hasVehicle: bool): (a: TimerAction)
    ensures a.Resend? <==> tryCount < MaxResends && hasVehicle
    ensures a.Resend? ==> a.cmd == (if running then StartLog else StopLog)
    ensures a.GiveUp? <==> tryCount >= MaxResends
    ensures a.GiveUp? ==> a.discard == running
  {
    if tryCount > MaxResends - 1 then GiveUp(running)
    else if hasVehicle then Resend(if running then StartLog else StopLog)
    else Stop
  }

  /** The actions of successive expiries, from `tryCount` earlier ones,
      while the vehicle stays and no acknowledgement arrives, until the
      timer is stopped. */
  function Expiries(tryCount: nat, running: bool): seq<TimerAction>
    decreases MaxResends - tryCount
  {
    var a := Expiry(tryCount, running, true);
    if a.Resend? then [a] + Expiries(tryCount + 1, running) else [a]
  }

  /** After a start or stop resets the count, the first four expiries send
      the same command again and the fifth gives up, discarding the new log
      exactly when logging is running. */
  lemma {:induction false} ExpiriesFrom(tryCount: nat, running: bool)
    requires tryCount <= MaxResends
    ensures var e := Expiries(tryCount, running);
            && |e| == MaxResends - tryCount + 1
            && (forall i :: 0 <= i < |e| - 1 ==> e[i] == Resend(if running then StartLog else StopLog))
            && e[|e| - 1] == GiveUp(running)
    decreases MaxResends - tryCount
  {
    if tryCount < MaxResends {
      ExpiriesFrom(tryCount + 1, running);
    }
  }

  // ---------------------------------------------------------------------
  // The manager object

  class LogManager {
    /** The log directory. */
    const logPath: string
    /** The records, ascending by name when built by insertion only. */
    var logFiles: seq<LogFile>
    /** The record being uploaded (_currentLogfile), if any. */
    var current: LogFile?
    var processor: LogProcessor?
    /** The active vehicle, by its system id. */
    var vehicle: Option<byte>
    var logRunning: bool
    var tryCount: int
    /** Whether the acknowledgement timer is running. */
    var timerArmed: bool
    /** Commands sent to the vehicle, oldest first. */
    var sent: seq<Command>
    /** Log files handed to the upload transport, oldest first. */
    var posted: seq<string>
    /** The files present in the log directory. */
    var disk: set<string>
    var email: string
    var description: string
    var uploadURL: string
    var autoUpload: bool
    var autoStart: bool
    var deleteAfterUpload: bool

    /** The record list has no repetitions, an upload address is set, and
        a capture in progress is consistent. */
    ghost predicate Sound()
      reads this, Capture(), CaptureRecord()`size
    {
      && Distinct(logFiles)
      && uploadURL != []
      && (processor != null ==> processor.Valid())
    }

    /** Sound, and a capture only runs with a vehicle to stop it. */
    ghost predicate Valid()
      reads this, Capture(), CaptureRecord()`size
    {
      Sound() && (processor != null ==> vehicle.Some?)
    }

    /** The record being uploaded, as a frame. */
    function Current(): set<LogFile>
      reads this
    {
      if current != null then {current} else {}
    }

    /** The capture in progress, as a frame. */
    function Capture(): set<LogProcessor>
      reads this
    {
      if processor != null then {processor} else {}
    }

    /** The record of the capture in progress, as a frame. */
    function CaptureRecord(): set<LogFile>
      reads this, Capture()
    {
      if processor != null then {processor.record} else {}
    }

    /** Source lines 298-336 with the settings handed in: the saved values
        through the setters, and an empty list (the directory scan adds the
        logs one DiscoverLog at a time). */
    constructor (logPath: string, disk: set<string>, email: string, description: string,
                 url: string, autoUpload: bool, autoStart: bool, deleteAfterUpload: bool)
      ensures Valid()
      ensures this.logPath == logPath && this.disk == disk && logFiles == []
      ensures current == null && processor == null && vehicle == None
      ensures !logRunning && tryCount == 0 && !timerArmed && sent == [] && posted == []
      ensures this.email == email && this.description == description && uploadURL == EffectiveURL(url)
      ensures this.autoUpload == autoUpload && this.autoStart == autoStart
      ensures this.deleteAfterUpload == deleteAfterUpload
    {
      this.logPath := logPath;
      logFiles := [];
      current := null;
      processor := null;
      vehicle := None;
      logRunning := false;
      tryCount := 0;
      timerArmed := false;
      sent := [];
      posted := [];
      this.disk := disk;
      this.email := email;
      this.description := description;
      uploadURL := EffectiveURL(url);
      this.autoUpload := autoUpload;
      this.autoStart := autoStart;
      this.deleteAfterUpload := deleteAfterUpload;
    }

    /** Source lines 357-364. */
    method SetEmailAddress(email: string)
      modifies this`email
      ensures this.email == email
    {
      this.email := email;
    }

    /** Source lines 367-374. */
    method SetDescription(description: string)
      modifies this`description
      ensures this.description == description
    {
      this.description := description;
    }

    /** Source lines 377-386: an empty address stands for the default. */
    method SetUploadURL(url: string)
      modifies this`uploadURL
      ensures uploadURL == EffectiveURL(url)
    {
      uploadURL := url;
      if uploadURL == [] {
        uploadURL := DefaultUploadURL;
      }
    }

    /** Source lines 389-396. */
    method SetEnableAutoUpload(enable: bool)
      modifies this`autoUpload
      ensures autoUpload == enable
    {
      autoUpload := enable;
    }

    /** Source lines 399-406. */
    method SetEnableAutoStart(enable: bool)
      modifies this`autoStart
      ensures autoStart == enable
    {
      autoStart := enable;
    }

    /** Source lines 409-416. */
    method SetDeleteAfterUpload(enable: bool)
      modifies this`deleteAfterUpload
      ensures deleteAfterUpload == enable
    {
      deleteAfterUpload := enable;
    }

    /** Source lines 420-423. */
    predicate Uploading()
      reads this
    {
      current != null
    }

    /** The upload state of the manager. */
    function Uploads(): UploadState
      reads this`current, this`posted, this`logFiles, logFiles`selected, logFiles`uploading, logFiles`progress
    {
      UploadState(current, posted, FlagsOf(logFiles))
    }

    /** The upload state once stopLogging has dealt with the finished
        capture's record `rec` (source lines 562-568): queued as QueueState
        says with auto upload, untouched without it. */
    function AutoQueueState(rec: LogFile): UploadState
      reads this`current, this`posted, this`logFiles, this`email, this`uploadURL, this`autoUpload
      reads logFiles`selected, logFiles`uploading, logFiles`progress, logFiles`uploaded, rec`uploaded
    {
      if autoUpload then QueueState(rec) else Uploads()
    }

    /** The upload state after the upload scan with no upload in flight
        (source lines 431-447): the first candidate, if any, is the upload
        in flight with its file posted, and the flags are as ScanFlags says
        for it. */
    function ScanState(): UploadState
      reads this`current, this`posted, this`logFiles, this`email, this`uploadURL
      reads logFiles`selected, logFiles`uploading, logFiles`progress, logFiles`uploaded
    {
      var k := FirstCandidate(logFiles, email != [] && uploadURL != []);
      UploadState(if k >= 0 then logFiles[k] else null,
                  posted + (if k >= 0 then [MakeFilename(logPath, logFiles[k].name)] else []),
                  ScanFlags(FlagsOf(logFiles), k))
    }

    /** The upload state once `rec` is queued for upload (source lines
        564-567): `rec` is selected; when no upload is in flight the scan
        then runs and picks QueuedPick, which becomes the upload in flight
        with its file posted. */
    function QueueState(rec: LogFile): UploadState
      reads this`current, this`posted, this`logFiles, this`email, this`uploadURL
      reads logFiles`selected, logFiles`uploading, logFiles`progress, logFiles`uploaded, rec`uploaded
    {
      var f := SelectAt(FlagsOf(logFiles), IndexOf(logFiles, rec));
      if current != null then UploadState(current, posted, f)
      else
        var q := QueuedPick(logFiles, email != [] && uploadURL != [], rec);
        UploadState(if q >= 0 then logFiles[q] else null,
                    posted + (if q >= 0 then [MakeFilename(logPath, logFiles[q].name)] else []),
                    ScanFlags(f, q))
    }

    // -------------------------------------------------------------------
    // The record list

    /** Source lines 453-469: the record goes before the first record whose
        name is greater than its own, or at the end. */
    method InsertNewLog(r: LogFile)
      requires Valid() && r !in logFiles
      modifies this`logFiles
      ensures Valid()
      ensures var k := InsertPos(Names(old(logFiles)), r.name);
              logFiles == old(logFiles)[..k] + [r] + old(logFiles)[k..]
      ensures Sorted(Names(old(logFiles))) ==> Sorted(Names(logFiles))
    {
      ghost var names := Names(logFiles);
      ghost var k := InsertPos(names, r.name);
      var count := |logFiles|;
      var i := 0;
      while i < count
        invariant 0 <= i <= count && logFiles == old(logFiles)
        invariant forall j :: 0 <= j < i ==> !Less(r.name, names[j])
      {
        if Less(r.name, logFiles[i].name) {
          assert i == k;
          SpliceDistinct(logFiles, i, r);
          InsertedSorted(logFiles, r, k);
          logFiles := logFiles[..i] + [r] + logFiles[i..];
          return;
        }
        i := i + 1;
      }
      assert k == count;
      SpliceDistinct(logFiles, k, r);
      InsertedSorted(logFiles, r, k);
      assert logFiles[..k] + [r] + logFiles[k..] == logFiles + [r];
      logFiles := logFiles + [r];
    }

    /** Source lines 330-332 for one file found in the directory: a record
        named after it, uploaded exactly when its sidecar marker is there,
        inserted in name order. */
    method DiscoverLog(path: string, size: nat)
      requires Valid()
      modifies this`logFiles
      ensures Valid()
      ensures exists r: LogFile ::
                && fresh(r) && r.name == BaseName(path) && r.size == size
                && r.uploaded == (SidecarPath(path) in disk) && !r.selected && !r.writing
                && logFiles == old(logFiles)[..InsertPos(Names(old(logFiles)), r.name)] + [r]
                               + old(logFiles)[InsertPos(Names(old(logFiles)), r.name)..]
    {
      var r := new LogFile.Existing(BaseName(path), size, SidecarPath(path) in disk);
      InsertNewLog(r);
    }

    /** Source lines 473-484: the index of the first selected record, or -1. */
    method GetFirstSelected() returns (idx: int)
      ensures idx == FirstSelected(logFiles)
    {
      var i := 0;
      while i < |logFiles|
        invariant 0 <= i <= |logFiles|
        invariant forall j :: 0 <= j < i ==> !logFiles[j].selected
      {
        if logFiles[i].selected {
          FirstSelectedAt(logFiles, i);
          return i;
        }
        i := i + 1;
      }
      FirstSelectedNone(logFiles);
      return -1;
    }

    /** Source lines 502-518: the record's file and its sidecar marker are
        removed from the directory and the record from the list. */
    method RemoveLog(log: LogFile)
      requires Sound()
      modifies this`logFiles, this`disk
      ensures Sound()
      ensures logFiles == RemoveOne(old(logFiles), log)
      ensures forall x :: x in logFiles <==> x in old(logFiles) && x != log
      ensures disk == old(disk) - RecordFiles(logPath, log.name)
    {
      var filePath := MakeFilename(logPath, log.name);
      disk := disk - {filePath};
      filePath := SidecarPath(filePath);
      if filePath in disk {
        disk := disk - {filePath};
      }
      RemoveOneMembers(logFiles, log);
      logFiles := RemoveOne(logFiles, log);
    }

    /** Source lines 488-498: removes selected records until none is left.
        The unselected records stay, in their order, and the files of the
        removed ones leave the directory. */
    method DeleteLog()
      requires Valid()
      modifies this`logFiles, this`disk
      ensures Valid()
      ensures logFiles == old(Unselected(logFiles))
      ensures forall i :: 0 <= i < |logFiles| ==> !logFiles[i].selected
      ensures disk == old(disk) - Files(logPath, old(Selected(logFiles)))
    {
      ghost var kept := Unselected(logFiles);
      ghost var chosen := Selected(logFiles);
      ghost var done: seq<LogFile> := [];
      assert Files(logPath, done) == {};
      assert Deleting(kept, chosen, done, old(disk));
      while true
        invariant Valid() && Deleting(kept, chosen, done, old(disk))
        decreases |logFiles|
      {
        var found;
        found, done := DeleteFirst(kept, chosen, done, old(disk));
        if !found {
          break;
        }
      }
      UnselectedAll(logFiles);
      SelectedNone(logFiles);
      assert chosen == done by {
        assert done + [] == done;
      }
    }

    /** What the loop of DeleteLog keeps: the unselected records of the
        start, in order; the selected ones of the start are those removed so
        far followed by those still selected; the files of the removed ones
        have left the directory. */
    ghost predicate Deleting(kept: seq<LogFile>, chosen: seq<LogFile>, done: seq<LogFile>,
                             disk0: set<string>)
      reads this, logFiles`selected
    {
      && Unselected(logFiles) == kept
      && chosen == done + Selected(logFiles)
      && disk == disk0 - Files(logPath, done)
    }

    /** Source lines 490-495, one round of the loop of DeleteLog: the first
        selected record goes, with its files, and joins the ones removed
        before it; with none selected nothing changes. */
    method DeleteFirst(ghost kept: seq<LogFile>, ghost chosen: seq<LogFile>, ghost done: seq<LogFile>,
                       ghost disk0: set<string>) returns (found: bool, ghost done': seq<LogFile>)
      requires Valid() && Deleting(kept, chosen, done, disk0)
      modifies this`logFiles, this`disk
      ensures Valid() && Deleting(kept, chosen, done', disk0)
      ensures found == (old(FirstSelected(logFiles)) >= 0)
      ensures found ==> |logFiles| < |old(logFiles)|
      ensures !found ==> logFiles == old(logFiles) && done' == done
    {
      var idx := GetFirstSelected();
      if idx < 0 {
        return false, done;
      }
      done' := DeleteAt(idx, kept, chosen, done, disk0);
      found := true;
    }

    /** Source lines 494-495: the selected record at idx, the first one,
        goes with its files. */
    method DeleteAt(idx: int, ghost kept: seq<LogFile>, ghost chosen: seq<LogFile>, ghost done: seq<LogFile>,
                    ghost disk0: set<string>) returns (ghost done': seq<LogFile>)
      requires Valid() && Deleting(kept, chosen, done, disk0)
      requires 0 <= idx && idx == FirstSelected(logFiles)
      modifies this`logFiles, this`disk
      ensures Valid() && Deleting(kept, chosen, done', disk0)
      ensures |logFiles| < |old(logFiles)|
    {
      var log := logFiles[idx];
      RemoveFirstSelected(logFiles, idx);
      ghost var t := RemoveOne(logFiles, log);
      ghost var rest := Selected(t);
      assert Unselected(t) == kept;
      RemoveLog(log);
      assert logFiles == t;
      assert Unselected(logFiles) == kept;
      assert Selected(logFiles) == rest;
      assert done + ([log] + rest) == done + [log] + rest;
      FilesSnoc(logPath, done, log);
      MinusUnion(disk0, Files(logPath, done), RecordFiles(logPath, log.name));
      done' := done + [log];
    }

    /** Source lines 522-534: every selected record except the one being
        uploaded is unselected; the upload itself is left to the transport
        (its abort signal is not part of this model). */
    method CancelUpload()
      requires Valid()
      modifies logFiles`selected
      ensures Valid()
      ensures forall i :: 0 <= i < |logFiles| ==>
                logFiles[i].selected == (old(logFiles[i].selected) && logFiles[i] == current)
    {
      var i := 0;
      while i < |logFiles|
        invariant 0 <= i <= |logFiles|
        invariant forall j :: 0 <= j < i ==>
                    logFiles[j].selected == (old(logFiles[j].selected) && logFiles[j] == current)
        invariant forall j :: i <= j < |logFiles| ==> logFiles[j].selected == old(logFiles[j].selected)
      {
        var f := logFiles[i];
        if f.selected && f != current {
          f.SetSelected(false);
        }
        i := i + 1;
      }
    }

    /** Source lines 427-449: the single-flight upload scan. The previous
        upload's record stops uploading; the scan unselects each selected
        record it passes; the first candidate becomes the current upload,
        uploading from zero progress, and its file goes to the transport;
        nothing after it is touched; with no candidate there is no current
        upload. */
    method UploadLog()
      requires Sound()
      modifies this`current, this`posted, logFiles`selected, logFiles`uploading, logFiles`progress
      modifies Current()`uploading
      ensures Sound()
      ensures var k := old(FirstCandidate(logFiles, email != [] && uploadURL != []));
              && current == (if k >= 0 then logFiles[k] else null)
              && posted == old(posted) + (if k >= 0 then [MakeFilename(logPath, logFiles[k].name)] else [])
              && (forall i :: 0 <= i < |logFiles| ==>
                    logFiles[i].selected == (if k < 0 || i <= k then false else old(logFiles[i].selected)))
              && (forall i :: 0 <= i < |logFiles| ==>
                    logFiles[i].uploading == (if i == k then true
                                              else if logFiles[i] == old(current) then false
                                              else old(logFiles[i].uploading)))
              && (forall i :: 0 <= i < |logFiles| ==>
                    logFiles[i].progress == (if i == k then 0.0 else old(logFiles[i].progress)))
      ensures old(current) != null && old(current) !in logFiles ==> !old(current).uploading
      ensures var c := current;
              c != null ==> c in logFiles && old(c.selected) && c.uploading && !c.uploaded
      ensures |posted| <= |old(posted)| + 1
    {
      if current != null {
        current.SetUploading(false);
      }
      Scan(FirstCandidate(logFiles, email != [] && uploadURL != []));
    }

    /** Source lines 431-447: the loop of the upload scan. */
    method Scan(ghost k: int)
      requires Sound() && k == FirstCandidate(logFiles, email != [] && uploadURL != [])
      modifies this`current, this`posted, logFiles`selected, logFiles`uploading, logFiles`progress
      ensures Sound()
      ensures && current == (if k >= 0 then logFiles[k] else null)
              && posted == old(posted) + (if k >= 0 then [MakeFilename(logPath, logFiles[k].name)] else [])
              && (forall i :: 0 <= i < |logFiles| ==>
                    logFiles[i].selected == (if k < 0 || i <= k then false else old(logFiles[i].selected)))
              && (forall i :: 0 <= i < |logFiles| ==>
                    logFiles[i].uploading == (if i == k then true else old(logFiles[i].uploading)))
              && (forall i :: 0 <= i < |logFiles| ==>
                    logFiles[i].progress == (if i == k then 0.0 else old(logFiles[i].progress)))
    {
      var i := Seek(k);
      if i < |logFiles| {
        Begin(i);
      } else {
        current := null;
      }
    }

    /** Source lines 431-437 up to the record the scan picks: every selected
        record before it is unselected, and the scan stops at it (or runs off
        the end of the list when there is none). */
    method Seek(ghost k: int) returns (i: int)
      requires Sound() && k == FirstCandidate(logFiles, email != [] && uploadURL != [])
      modifies this`current, logFiles`selected
      ensures Sound()
      ensures i == (if k >= 0 then k else |logFiles|)
      ensures i < |logFiles| ==> current == logFiles[i]
      ensures forall j :: 0 <= j < |logFiles| ==>
                logFiles[j].selected == (if j < i then false else old(logFiles[j].selected))
    {
      ghost var canSend := email != [] && uploadURL != [];
      i := 0;
      while i < |logFiles|
        invariant 0 <= i <= |logFiles|
        invariant k < 0 || i <= k
        invariant forall j :: 0 <= j < i ==> !logFiles[j].selected
        invariant forall j :: i <= j < |logFiles| ==> logFiles[j].selected == old(logFiles[j].selected)
      {
        current := logFiles[i];
        ghost var picked := old(Candidate(logFiles[i], canSend));
        assert picked == (current.selected && !current.uploaded && canSend);
        if current.selected {
          if !current.uploaded && email != [] && uploadURL != [] {
            return;
          }
          Unselect(i);
        }
        assert i != k;
        i := i + 1;
      }
    }

    /** Source line 433: the record at index i is unselected. */
    method Unselect(i: int)
      requires Sound() && 0 <= i < |logFiles| && current == logFiles[i]
      modifies Current()`selected
      ensures Sound()
      ensures forall j :: 0 <= j < |logFiles| ==>
                logFiles[j].selected == (j != i && old(logFiles[j].selected))
    {
      current.SetSelected(false);
    }

    /** Source lines 434-441: the record at index i is unselected, marked as
        uploading from zero progress, and its file goes to the transport. */
    method Begin(i: int)
      requires Sound() && 0 <= i < |logFiles| && current == logFiles[i]
      modifies this`posted, Current()`selected, Current()`uploading, Current()`progress
      ensures Sound()
      ensures posted == old(posted) + [MakeFilename(logPath, logFiles[i].name)]
      ensures forall j :: 0 <= j < |logFiles| ==>
                logFiles[j].selected == (j != i && old(logFiles[j].selected))
      ensures forall j :: 0 <= j < |logFiles| ==>
                logFiles[j].uploading == (if j == i then true else old(logFiles[j].uploading))
      ensures forall j :: 0 <= j < |logFiles| ==>
                logFiles[j].progress == (if j == i then 0.0 else old(logFiles[j].progress))
    {
      current.SetSelected(false);
      current.SetUploading(true);
      current.SetProgress(0.0);
      var filePath := MakeFilename(logPath, current.name);
      posted := posted + [filePath];
    }

    /** Source lines 686-720: the outcome of the upload is recorded, as
        RecordOutcome says, and the scan moves on to the next selected
        record. The next upload, if any, is a record of the list that is
        uploading and not uploaded yet, and it is the one that just finished
        only when that one failed. */
    method UploadFinished(httpCode: int)
      requires Valid()
      modifies this`logFiles, this`disk, this`current, this`posted
      modifies logFiles`selected, logFiles`uploading, logFiles`progress
      modifies Current()`uploading, Current()`uploaded
      ensures Valid()
      ensures var removed := UploadSucceeded(httpCode) && deleteAfterUpload && old(current) != null;
              logFiles == if removed then RemoveOne(old(logFiles), old(current)) else old(logFiles)
      ensures UploadSucceeded(httpCode) && old(current) != null ==>
                disk == if deleteAfterUpload then old(disk) - RecordFiles(logPath, old(current).name)
                        else old(disk) + {SidecarPath(MakeFilename(logPath, old(current).name))}
      ensures !UploadSucceeded(httpCode) || old(current) == null ==> disk == old(disk)
      ensures current != null && current == old(current) ==> !UploadSucceeded(httpCode)
      ensures current != null ==> current in logFiles && current.uploading && !current.uploaded
      ensures |posted| <= |old(posted)| + 1
      ensures !UploadSucceeded(httpCode) && old(current) != null ==> old(current).uploaded == old(current.uploaded)
    {
      RecordOutcome(httpCode);
      ghost var files, onDisk := logFiles, disk;
      UploadLog();
      assert logFiles == files && disk == onDisk;
    }

    /** Source lines 694-711: HTTP 200 marks the current record uploaded,
        by its flag and a sidecar marker beside its file, or deletes it with
        its files when so configured; any other status changes nothing. */
    method RecordOutcome(httpCode: int)
      requires Valid()
      modifies this`logFiles, this`disk, this`current, Current()`uploaded
      ensures Valid()
      ensures var removed := UploadSucceeded(httpCode) && deleteAfterUpload && old(current) != null;
              && logFiles == (if removed then RemoveOne(old(logFiles), old(current)) else old(logFiles))
              && current == (if removed then null else old(current))
              && (forall i :: 0 <= i < |logFiles| ==> logFiles[i] in old(logFiles))
              && (removed ==> old(current) !in logFiles && disk == old(disk) - RecordFiles(logPath, old(current).name))
      ensures UploadSucceeded(httpCode) && !deleteAfterUpload && old(current) != null ==>
                old(current).uploaded
                && disk == old(disk) + {SidecarPath(MakeFilename(logPath, old(current).name))}
      ensures !UploadSucceeded(httpCode) || old(current) == null ==> disk == old(disk)
      ensures UploadSucceeded(httpCode) && old(current) != null ==> old(current) !in logFiles || old(current).uploaded
      ensures !UploadSucceeded(httpCode) && old(current) != null ==> old(current).uploaded == old(current.uploaded)
    {
      if UploadSucceeded(httpCode) {
        if deleteAfterUpload {
          if current != null {
            RemoveLog(current);
            current := null;
          }
        } else {
          if current != null {
            current.SetUploaded(true);
            var sideCar := SidecarPath(MakeFilename(logPath, current.name));
            disk := disk + {sideCar};
          }
        }
      }
    }

    // -------------------------------------------------------------------
    // Capture

    /** Source lines 855-872 with the time of day, whether fopen succeeds
        and the free space of the device handed in. A previous processor is
        dropped as it is (its record keeps its writing flag). On success the
        new record, named "%03d-<stamp>" after the vehicle id, is being
        written, sits in the list in name order and its file exists. */
    method CreateNewLog(ts: DateTime, fopenOk: bool, room: nat) returns (created: bool)
      requires Valid() && vehicle.Some? && ValidDateTime(ts)
      modifies this`processor, this`logFiles, this`disk
      ensures Valid()
      ensures created == fopenOk && created == (processor != null)
      ensures created ==>
                && fresh(processor) && fresh(processor.record)
                && processor.fileName == LogFilePath(logPath, vehicle.value, ts)
                && processor.record.name == LogBaseName(vehicle.value, ts)
                && processor.record.writing && processor.record.size == 0
                && !processor.record.selected && !processor.record.uploading && !processor.record.uploaded
                && processor.record.progress == 0.0
                && processor.sink == [] && processor.State() == Reassembly(-1, 0, false, [])
                && disk == old(disk) + {LogFilePath(logPath, vehicle.value, ts)}
                && var k := InsertPos(Names(old(logFiles)), processor.record.name);
                   logFiles == old(logFiles)[..k] + [processor.record] + old(logFiles)[k..]
      ensures !created ==> logFiles == old(logFiles) && disk == old(disk)
    {
      processor := null;
      if fopenOk {
        var p := OpenCapture(ts, room);
        processor := p;
        InsertNewLog(p.record);
        disk := disk + {p.fileName};
      }
      created := processor != null;
    }

    /** Source lines 858-866: the processor of a new capture file, whose
        record is named after that file. */
    method OpenCapture(ts: DateTime, room: nat) returns (p: LogProcessor)
      requires vehicle.Some? && ValidDateTime(ts)
      ensures fresh(p) && fresh(p.record) && p.Valid()
      ensures p.fileName == LogFilePath(logPath, vehicle.value, ts)
      ensures p.record.name == LogBaseName(vehicle.value, ts)
      ensures p.record.writing && p.record.size == 0
      ensures !p.record.selected && !p.record.uploading && !p.record.uploaded
      ensures p.record.progress == 0.0
      ensures p.sink == [] && p.State() == Reassembly(-1, 0, false, []) && !p.closed
    {
      var path := LogFilePath(logPath, vehicle.value, ts);
      NewLogName(logPath, vehicle.value, ts);
      p := new LogProcessor(path, room);
    }

    /** Source lines 538-549: with a vehicle and a new log file, as
        CreateNewLog makes it, the start command goes out and the
        acknowledgement timer starts from zero tries. Whether logging
        already runs is not checked. */
    method StartLogging(ts: DateTime, fopenOk: bool, room: nat)
      requires Valid() && ValidDateTime(ts)
      modifies this`processor, this`logFiles, this`disk
      modifies this`sent, this`logRunning, this`tryCount, this`timerArmed
      ensures Valid()
      ensures var started := old(vehicle).Some? && fopenOk;
              sent == old(sent) + (if started then [StartLog] else [])
      ensures old(vehicle).Some? && fopenOk ==>
                && logRunning && tryCount == 0 && timerArmed
                && fresh(processor) && fresh(processor.record)
                && processor.fileName == LogFilePath(logPath, vehicle.value, ts)
                && processor.record.name == LogBaseName(vehicle.value, ts)
                && processor.record.writing && processor.record.size == 0
                && !processor.record.selected && !processor.record.uploading && !processor.record.uploaded
                && processor.record.progress == 0.0
                && processor.sink == [] && processor.State() == Reassembly(-1, 0, false, [])
                && disk == old(disk) + {LogFilePath(logPath, vehicle.value, ts)}
                && var k := InsertPos(Names(old(logFiles)), processor.record.name);
                   logFiles == old(logFiles)[..k] + [processor.record] + old(logFiles)[k..]
      ensures old(vehicle).Some? && !fopenOk ==> processor == null
      ensures old(vehicle).None? ==> processor == old(processor)
      ensures !(old(vehicle).Some? && fopenOk) ==>
                && logRunning == old(logRunning) && tryCount == old(tryCount) && timerArmed == old(timerArmed)
                && logFiles == old(logFiles) && disk == old(disk)
    {
      if vehicle.Some? {
        var created := CreateNewLog(ts, fopenOk, room);
        if created {
          BeginLogging();
        }
      }
    }

    /** Source lines 542-546: the start command goes out, logging runs and
        the acknowledgement timer starts from zero tries. */
    method BeginLogging()
      modifies this`sent, this`logRunning, this`tryCount, this`timerArmed
      ensures sent == old(sent) + [StartLog]
      ensures logRunning && tryCount == 0 && timerArmed
    {
      sent := sent + [StartLog];
      logRunning := true;
      tryCount := 0;
      timerArmed := true;
    }

    /** Source lines 553-580: the stop command goes out when a vehicle is
        present, then the capture, if any, is closed as CloseCapture says. */
    method StopLogging()
      requires Sound()
      modifies this`sent, this`processor, this`logRunning, this`tryCount, this`timerArmed
      modifies this`current, this`posted, logFiles`selected, logFiles`uploading, logFiles`progress
      modifies Current()`uploading, Capture()`closed, CaptureRecord()`writing, CaptureRecord()`selected
      ensures Valid()
      ensures processor == null
      ensures sent == old(sent) + (if vehicle.Some? then [StopLog] else [])
      ensures old(processor) == null ==>
                logRunning == old(logRunning) && tryCount == old(tryCount)
                && timerArmed == old(timerArmed)
                && unchanged(this`current, this`posted, logFiles`selected, logFiles`uploading, logFiles`progress)
      ensures old(processor) != null ==>
                && !logRunning && old(processor).closed && !old(processor).record.writing
                && (vehicle.Some? ==> tryCount == 0 && timerArmed)
                && (vehicle.None? ==> tryCount == old(tryCount) && timerArmed == old(timerArmed))
                && Uploads() == old(AutoQueueState(processor.record))
                && var rec := old(processor).record;
                   && (autoUpload && (old(current) != null || rec !in logFiles) ==> rec.selected)
                   && (!autoUpload ==> rec.selected == old(rec.selected))
    {
      if vehicle.Some? {
        sent := sent + [StopLog];
      }
      if processor != null {
        CloseCapture();
      }
    }

    /** Source lines 557-578: the capture is closed, its record is no longer
        being written and, with auto upload, is queued for upload; logging
        is off and, with a vehicle, the timer restarts from zero tries. */
    method CloseCapture()
      requires Sound() && processor != null
      modifies this`processor, this`logRunning, this`tryCount, this`timerArmed
      modifies this`current, this`posted, logFiles`selected, logFiles`uploading, logFiles`progress
      modifies Current()`uploading, Capture()`closed, CaptureRecord()`writing, CaptureRecord()`selected
      ensures Valid()
      ensures processor == null && !logRunning
      ensures old(processor).closed && !old(processor).record.writing
      ensures vehicle.Some? ==> tryCount == 0 && timerArmed
      ensures vehicle.None? ==> tryCount == old(tryCount) && timerArmed == old(timerArmed)
      ensures Uploads() == old(AutoQueueState(processor.record))
      ensures var rec := old(processor).record;
              && (autoUpload && (old(current) != null || rec !in logFiles) ==> rec.selected)
              && (!autoUpload ==> rec.selected == old(rec.selected))
    {
      QueueCapture();
      EndLogging();
    }

    /** Source lines 558-568: the capture is closed, its record is no
        longer being written and goes through AutoQueue. */
    method QueueCapture()
      requires Sound() && processor != null
      modifies this`current, this`posted, logFiles`selected, logFiles`uploading, logFiles`progress
      modifies Current()`uploading, Capture()`closed, CaptureRecord()`writing, CaptureRecord()`selected
      ensures Sound() && processor == old(processor)
      ensures processor.closed && !processor.record.writing
      ensures Uploads() == old(AutoQueueState(processor.record))
      ensures var rec := processor.record;
              && (autoUpload && (old(current) != null || rec !in logFiles) ==> rec.selected)
              && (!autoUpload ==> rec.selected == old(rec.selected))
    {
      var rec := processor.record;
      FinishCapture();
      AutoQueue(rec);
    }

    /** Source lines 558-560: the capture's file is closed and its record
        is no longer being written. */
    method FinishCapture()
      requires Sound() && processor != null
      modifies Capture()`closed, CaptureRecord()`writing
      ensures Sound() && processor.closed && !processor.record.writing
      ensures AutoQueueState(processor.record) == old(AutoQueueState(processor.record))
    {
      processor.Close();
      processor.record.SetWriting(false);
    }

    /** Source lines 562-568: with auto upload the record is queued as
        QueueUpload says; without it nothing changes. */
    method AutoQueue(rec: LogFile)
      requires Sound()
      modifies rec`selected, this`current, this`posted
      modifies logFiles`selected, logFiles`uploading, logFiles`progress, Current()`uploading
      ensures Sound()
      ensures Uploads() == old(AutoQueueState(rec))
      ensures autoUpload && (old(current) != null || rec !in logFiles) ==> rec.selected
      ensures !autoUpload ==> rec.selected == old(rec.selected)
    {
      if autoUpload {
        QueueUpload(rec);
      }
    }

    /** Source lines 570-578: the capture is dropped and logging is off;
        with a vehicle the timer restarts from zero tries. */
    method EndLogging()
      requires Sound()
      modifies this`processor, this`logRunning, this`tryCount, this`timerArmed
      ensures Valid()
      ensures processor == null && !logRunning
      ensures vehicle.Some? ==> tryCount == 0 && timerArmed
      ensures vehicle.None? ==> tryCount == old(tryCount) && timerArmed == old(timerArmed)
      ensures unchanged(this`current, this`posted, logFiles`selected, logFiles`uploading, logFiles`progress)
    {
      processor := null;
      logRunning := false;
      if vehicle.Some? {
        tryCount := 0;
        timerArmed := true;
      }
    }

    /** Source lines 564-567: the finished capture's record is selected,
        and the upload scan runs when no upload is in flight, so the record
        is uploaded now or after those before it; the upload state becomes
        QueueState. */
    method QueueUpload(rec: LogFile)
      requires Sound()
      modifies rec`selected, this`current, this`posted
      modifies logFiles`selected, logFiles`uploading, logFiles`progress, Current()`uploading
      ensures Sound()
      ensures Uploads() == old(QueueState(rec))
      ensures old(current) != null || rec !in logFiles ==> rec.selected
    {
      ghost var canSend := email != [] && uploadURL != [];
      ghost var q := QueuedPick(logFiles, canSend, rec);
      MarkSelected(rec);
      if !Uploading() {
        FirstCandidateUnique(logFiles, canSend, q);
        assert ScanState() == old(QueueState(rec));
        ScanIdle();
      }
    }

    /** Source lines 426-448 with no upload in flight: uploadLog leaves
        the upload state as ScanState says. */
    method ScanIdle()
      requires Sound() && current == null
      modifies this`current, this`posted, logFiles`selected, logFiles`uploading, logFiles`progress
      ensures Sound()
      ensures Uploads() == old(ScanState())
    {
      ghost var k := FirstCandidate(logFiles, email != [] && uploadURL != []);
      ghost var f := FlagsOf(logFiles);
      UploadLog();
      FlagsAre(logFiles, ScanFlags(f, k));
    }

    /** Source line 564: `rec` is selected, so the records the scan would
        pick are now those that were Queued. */
    method MarkSelected(rec: LogFile)
      requires Sound()
      modifies rec`selected
      ensures Sound() && rec.selected
      ensures FlagsOf(logFiles) == SelectAt(old(FlagsOf(logFiles)), IndexOf(logFiles, rec))
      ensures forall i :: 0 <= i < |logFiles| ==>
                Candidate(logFiles[i], email != [] && uploadURL != [])
                == old(Queued(logFiles[i], email != [] && uploadURL != [], rec))
    {
      ghost var j := IndexOf(logFiles, rec);
      ghost var f := SelectAt(FlagsOf(logFiles), j);
      assert forall i :: 0 <= i < |logFiles| ==> (logFiles[i] == rec <==> i == j);
      rec.SetSelected(true);
      FlagsAre(logFiles, f);
    }

    /** Source lines 837-851: the capture, if any, is closed and its record
        deleted with its files; logging is off. */
    method DiscardLog()
      requires Valid()
      modifies this`processor, this`logFiles, this`disk, this`logRunning
      modifies Capture()`closed
      ensures Valid()
      ensures processor == null && !logRunning
      ensures old(processor) != null ==>
                old(processor).closed
                && logFiles == RemoveOne(old(logFiles), old(processor).record)
                && disk == old(disk) - RecordFiles(logPath, old(processor).record.name)
      ensures old(processor) == null ==> logFiles == old(logFiles) && disk == old(disk)
    {
      if processor != null {
        processor.Close();
        RemoveLog(processor.record);
        processor := null;
      }
      logRunning := false;
    }

    /** Source lines 766-792: one expiry of the acknowledgement timer. */
    method ProcessCmdAck()
      requires Valid()
      modifies this`tryCount, this`timerArmed, this`sent
      modifies this`processor, this`logFiles, this`disk, this`logRunning
      modifies Capture()`closed
      ensures Valid()
      ensures tryCount == old(tryCount) + 1
      ensures match Expiry(old(tryCount), old(logRunning), vehicle.Some?)
              case Resend(c) =>
                sent == old(sent) + [c] && timerArmed && logRunning == old(logRunning)
                && processor == old(processor) && logFiles == old(logFiles) && disk == old(disk)
              case GiveUp(discard) =>
                sent == old(sent) && !timerArmed
                && (discard ==> processor == null && !logRunning
                                && (old(processor) != null ==>
                                      logFiles == RemoveOne(old(logFiles), old(processor).record)
                                      && disk == old(disk) - RecordFiles(logPath, old(processor).record.name))
                                && (old(processor) == null ==> logFiles == old(logFiles) && disk == old(disk)))
                && (!discard ==> processor == old(processor) && logRunning == old(logRunning)
                                 && logFiles == old(logFiles) && disk == old(disk))
              case Stop =>
                sent == old(sent) && !timerArmed && logRunning == old(logRunning)
                && processor == old(processor) && logFiles == old(logFiles) && disk == old(disk)
    {
      var tries := tryCount;
      tryCount := tryCount + 1;
      if tries > MaxResends - 1 {
        timerArmed := false;
        if logRunning {
          DiscardLog();
        }
      } else {
        if vehicle.Some? {
          if logRunning {
            sent := sent + [StartLog];
          } else {
            sent := sent + [StopLog];
          }
          timerArmed := true;
        } else {
          timerArmed := false;
        }
      }
    }

    /** Source lines 817-834: an acknowledgement of the start or stop
        command stops the timer; a failed start discards the log. */
    method CommandLongAck(command: uint16, result: byte)
      requires Valid()
      modifies this`timerArmed, this`processor, this`logFiles, this`disk, this`logRunning
      modifies Capture()`closed
      ensures Valid()
      ensures var ours := command == LoggingStartCommand || command == LoggingStopCommand;
              var discard := command == LoggingStartCommand && result != 0;
              && timerArmed == (old(timerArmed) && !ours)
              && (discard ==> processor == null && !logRunning
                              && (old(processor) != null ==>
                                    logFiles == RemoveOne(old(logFiles), old(processor).record)
                                    && disk == old(disk) - RecordFiles(logPath, old(processor).record.name))
                              && (old(processor) == null ==> logFiles == old(logFiles) && disk == old(disk)))
              && (!discard ==> processor == old(processor) && logRunning == old(logRunning)
                               && logFiles == old(logFiles) && disk == old(disk))
    {
      if command == LoggingStartCommand || command == LoggingStopCommand {
        timerArmed := false;
        if result != 0 {
          if command == LoggingStartCommand {
            DiscardLog();
          }
        }
      }
    }

    /** Source lines 796-813: one chunk of the log stream. It stops the
        timer while logging runs and goes to the capture when there is an
        open one; a failed chunk ends the capture (the record stays in the
        list, still flagged as being written) and stops the vehicle's log. */
    method MavlinkLogData(seqNo: uint16, first: byte, data: seq<byte>)
      requires Valid()
      modifies this`timerArmed, this`processor, this`logRunning, this`sent
      modifies Capture(), CaptureRecord()`size
      ensures Valid()
      ensures timerArmed == (old(timerArmed) && !old(logRunning))
      ensures logFiles == old(logFiles) && disk == old(disk)
      ensures old(processor) == null || old(processor.closed) ==>
                processor == old(processor) && logRunning == old(logRunning) && sent == old(sent)
      ensures old(processor) != null && !old(processor.closed) ==>
                var st := Chunk(old(processor.State()), seqNo, first, data);
                && old(processor).State() == st.after
                && old(processor).Output() == WriteAll(old(processor.Output()).(error := false), st.writes)
                && old(processor).record.writing == old(processor.record.writing)
                && var failed := !st.headerOk || old(processor).error;
                   && (failed ==> processor == null && !logRunning && sent == old(sent) + [StopLog])
                   && (!failed ==> processor == old(processor) && logRunning == old(logRunning) && sent == old(sent))
    {
      if logRunning {
        timerArmed := false;
      }
      if processor != null && processor.IsValid() {
        var ok := processor.ProcessStreamData(seqNo, first, data);
        if !ok {
          processor := null;
          logRunning := false;
          sent := sent + [StopLog];
        }
      }
    }

    /** Source lines 876-889: arming starts a capture and disarming stops a
        running one, both only with auto start and a vehicle. */
    method ArmedChanged(armed: bool, ts: DateTime, fopenOk: bool, room: nat)
      requires Valid() && ValidDateTime(ts)
      modifies this`sent, this`processor, this`logRunning, this`tryCount, this`timerArmed
      modifies this`current, this`posted, logFiles`selected, logFiles`uploading, logFiles`progress
      modifies Current()`uploading, Capture()`closed, CaptureRecord()`writing, CaptureRecord()`selected
      modifies this`logFiles, this`disk
      ensures Valid()
      ensures vehicle == old(vehicle)
      ensures vehicle.None? ==>
                && sent == old(sent) && processor == old(processor) && logRunning == old(logRunning)
                && tryCount == old(tryCount) && timerArmed == old(timerArmed)
                && logFiles == old(logFiles) && disk == old(disk)
                && unchanged(this`current, this`posted, logFiles`selected, logFiles`uploading, logFiles`progress)
      ensures vehicle.Some? && armed ==>
                && unchanged(this`current, this`posted)
                && unchanged(old(logFiles)`selected, old(logFiles)`uploading, old(logFiles)`progress)
                && (autoStart ==> sent == old(sent) + (if fopenOk then [StartLog] else []))
                && (autoStart && fopenOk ==>
                      && logRunning && tryCount == 0 && timerArmed
                      && processor != null && fresh(processor.record)
                      && processor.record.name == LogBaseName(vehicle.value, ts)
                      && processor.record in logFiles && processor.record.writing
                      && !processor.record.selected && !processor.record.uploading
                      && processor.record.progress == 0.0
                      && disk == old(disk) + {LogFilePath(logPath, vehicle.value, ts)})
                && (autoStart && !fopenOk ==>
                      && processor == null && logRunning == old(logRunning)
                      && tryCount == old(tryCount) && timerArmed == old(timerArmed)
                      && logFiles == old(logFiles) && disk == old(disk))
                && (!autoStart ==>
                      && sent == old(sent) && processor == old(processor) && logRunning == old(logRunning)
                      && tryCount == old(tryCount) && timerArmed == old(timerArmed)
                      && logFiles == old(logFiles) && disk == old(disk))
      ensures vehicle.Some? && !armed ==>
                && logFiles == old(logFiles) && disk == old(disk)
                && var stops := old(logRunning) && autoStart;
                   && (stops ==> sent == old(sent) + [StopLog] && processor == null)
                   && (stops && old(processor) != null ==>
                         && !logRunning && old(processor).closed && !old(processor).record.writing
                         && tryCount == 0 && timerArmed
                         && Uploads() == old(AutoQueueState(processor.record))
                         && var rec := old(processor).record;
                            && (autoUpload && (old(current) != null || rec !in logFiles) ==> rec.selected)
                            && (!autoUpload ==> rec.selected == old(rec.selected)))
                   && (stops && old(processor) == null ==>
                         && logRunning == old(logRunning) && tryCount == old(tryCount)
                         && timerArmed == old(timerArmed)
                         && unchanged(this`current, this`posted, logFiles`selected, logFiles`uploading, logFiles`progress))
                   && (!stops ==>
                         && sent == old(sent) && processor == old(processor) && logRunning == old(logRunning)
                         && tryCount == old(tryCount) && timerArmed == old(timerArmed)
                         && unchanged(this`current, this`posted, logFiles`selected, logFiles`uploading, logFiles`progress))
    {
      if vehicle.Some? {
        if armed {
          Armed(ts, fopenOk, room);
        } else {
          Disarmed();
        }
      }
    }

    /** Source lines 879-881: with the vehicle armed, a log is started as
        StartLogging says when auto start is on. */
    method Armed(ts: DateTime, fopenOk: bool, room: nat)
      requires Valid() && vehicle.Some? && ValidDateTime(ts)
      modifies this`processor, this`logFiles, this`disk
      modifies this`sent, this`logRunning, this`tryCount, this`timerArmed
      ensures Valid()
      ensures autoStart ==>
                && sent == old(sent) + (if fopenOk then [StartLog] else [])
                && unchanged(old(logFiles)`selected, old(logFiles)`uploading, old(logFiles)`progress)
      ensures autoStart && fopenOk ==>
                && logRunning && tryCount == 0 && timerArmed
                && processor != null && fresh(processor.record)
                && processor.record.name == LogBaseName(vehicle.value, ts)
                && processor.record in logFiles && processor.record.writing
                && !processor.record.selected && !processor.record.uploading
                && processor.record.progress == 0.0
                && disk == old(disk) + {LogFilePath(logPath, vehicle.value, ts)}
      ensures autoStart && !fopenOk ==>
                && processor == null && logRunning == old(logRunning)
                && tryCount == old(tryCount) && timerArmed == old(timerArmed)
                && logFiles == old(logFiles) && disk == old(disk)
      ensures !autoStart ==>
                && sent == old(sent) && processor == old(processor) && logRunning == old(logRunning)
                && tryCount == old(tryCount) && timerArmed == old(timerArmed)
                && logFiles == old(logFiles) && disk == old(disk)
    {
      if autoStart {
        StartLogging(ts, fopenOk, room);
      }
    }

    /** Source lines 882-885: with the vehicle disarmed, a running log is
        stopped as StopLogging says when auto start is on. */
    method Disarmed()
      requires Valid() && vehicle.Some?
      modifies this`sent, this`processor, this`logRunning, this`tryCount, this`timerArmed
      modifies this`current, this`posted, logFiles`selected, logFiles`uploading, logFiles`progress
      modifies Current()`uploading, Capture()`closed, CaptureRecord()`writing, CaptureRecord()`selected
      ensures Valid()
      ensures var stops := old(logRunning) && autoStart;
              && (stops ==> sent == old(sent) + [StopLog] && processor == null)
              && (stops && old(processor) != null ==>
                    && !logRunning && old(processor).closed && !old(processor).record.writing
                    && tryCount == 0 && timerArmed
                    && Uploads() == old(AutoQueueState(processor.record))
                    && var rec := old(processor).record;
                       && (autoUpload && (old(current) != null || rec !in logFiles) ==> rec.selected)
                       && (!autoUpload ==> rec.selected == old(rec.selected)))
              && (stops && old(processor) == null ==>
                    && logRunning == old(logRunning) && tryCount == old(tryCount)
                    && timerArmed == old(timerArmed)
                    && unchanged(this`current, this`posted, logFiles`selected, logFiles`uploading, logFiles`progress))
              && (!stops ==>
                    && sent == old(sent) && processor == old(processor) && logRunning == old(logRunning)
                    && tryCount == old(tryCount) && timerArmed == old(timerArmed)
                    && unchanged(this`current, this`posted, logFiles`selected, logFiles`uploading, logFiles`progress))
    {
      if logRunning && autoStart {
        StopLogging();
      }
    }

    /** Source lines 738-762: losing the vehicle stops the capture (with no
        stop command, as there is no vehicle to send it to); a new vehicle
        becomes the active one. */
    method ActiveVehicleChanged(v: Option<byte>)
      requires Valid()
      modifies this`sent, this`processor, this`logRunning, this`tryCount, this`timerArmed
      modifies this`current, this`posted, logFiles`selected, logFiles`uploading, logFiles`progress
      modifies Current()`uploading, Capture()`closed, CaptureRecord()`writing, CaptureRecord()`selected
      modifies this`vehicle
      ensures Valid()
      ensures vehicle == v
      ensures sent == old(sent)
      ensures old(vehicle).Some? ==> processor == null
      ensures old(vehicle).Some? && old(processor) != null ==>
                && !logRunning && old(processor).closed && !old(processor).record.writing
                && Uploads() == old(AutoQueueState(processor.record))
                && var rec := old(processor).record;
                   && (autoUpload && (old(current) != null || rec !in logFiles) ==> rec.selected)
                   && (!autoUpload ==> rec.selected == old(rec.selected))
      ensures old(vehicle).None? || old(processor) == null ==>
                logRunning == old(logRunning)
                && unchanged(this`current, this`posted, logFiles`selected, logFiles`uploading, logFiles`progress)
      ensures old(vehicle).None? ==> processor == old(processor)
      ensures tryCount == old(tryCount) && timerArmed == old(timerArmed)
    {
      if vehicle.Some? {
        vehicle := None;
        StopLogging();
      }
      if v.Some? {
        vehicle := v;
      }
    }
  }

  /** Inserting a record where the manager does keeps the other records in
      place and an ascending list ascending. */
  lemma InsertedSorted(s: seq<LogFile>, r: LogFile, k: nat)
    requires k == InsertPos(Names(s), r.name)
    ensures Sorted(Names(s)) ==> Sorted(Names(s[..k] + [r] + s[k..]))
  {
    NamesSplice(s, k, r);
    if Sorted(Names(s)) {
      InsertKeepsSorted(Names(s), r.name);
    }
  }

  lemma FirstSelectedAt(s: seq<LogFile>, i: nat)
    requires i < |s| && s[i].selected
    requires forall j :: 0 <= j < i ==> !s[j].selected
    ensures FirstSelected(s) == i
  {
  }

  lemma FirstSelectedNone(s: seq<LogFile>)
    requires forall j :: 0 <= j < |s| ==> !s[j].selected
    ensures FirstSelected(s) == -1
  {
  }
}
