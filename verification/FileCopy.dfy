/**
 Copying a file: the two copy loops, one attempt at a download from the request for it to its end, and one at
 an upload.
 */
module FileCopy {

  import opened Wrappers
  import opened TransferState

  type Byte = x: int | 0 <= x < 256

  function Min(a: nat, b: nat): (m: nat)
    ensures m <= a && m <= b
  {
    if a < b then a else b
  }

  // ---------------------------------------------------------------- what the network does

  /**
   One pass of a copy loop: the tokens granted and, when receiving, how much of the data at hand a read
   returns. The network may fail at one pass.
   */
  datatype Network = Network(tokens: nat -> nat, available: nat -> nat, failsAt: Option<nat>)

  ghost predicate Grants(n: Network)
  {
    forall k :: n.tokens(k) > 0 && n.available(k) > 0
  }

  const CANCELLED := "Cancelled"
  const COMPLETED := "Complete"
  const FILE_READ_ERROR := "File read error."
  const FILE_NOT_SHARED := "File not shared."

  // ---------------------------------------------------------------- receiving

  datatype Received = Finished | ReadFailed

  /** How an attempt to download goes, up to the connection over which the bytes of arriving come. */
  datatype Attempt =
    | ReplyNotSent
    | NoFileConnection
    | OffsetNotSent
    | PathNotCreated(path: string)
    | FileNotOpened(path: string)
    | Connected(path: string, arriving: seq<Byte>, network: Network)

  class Download {
    var t: Fields
    /** The file at the local path; empty as long as there is none. */
    var local: seq<Byte>

    constructor (username: Name, remotePath: string)
      ensures t == NewTransfer(username, remotePath, TransferState.Download) && local == []
    {
      t := NewTransfer(username, remotePath, TransferState.Download);
      local := [];
    }

    /** receive_file, with the progress callback: until end of file or until filesize bytes have come. */
    method ReceiveFile(arriving: seq<Byte>, network: Network, filesize: int) returns (r: Received, ghost taken: nat)
      requires Grants(network)
      modifies this
      ensures taken <= |arriving| && local == old(local) + arriving[..taken]
      ensures t == old(t).(bytesTransfered := old(t.bytesTransfered) + taken)
      ensures r == Finished ==> taken == |arriving| || taken >= filesize
      ensures r == ReadFailed ==> taken == 0 || taken < filesize
      ensures network.failsAt == None ==> r == Finished
    {
      taken := 0;
      var bytesReceived := 0;
      var passes := 0;
      assert local == old(local) + arriving[..0];
      while true
        invariant bytesReceived == taken <= |arriving|
        invariant local == old(local) + arriving[..taken] && (taken == 0 || taken < filesize)
        invariant t == old(t).(bytesTransfered := old(t.bytesTransfered) + taken)
        decreases |arriving| - taken
      {
        var bytesToRead := network.tokens(passes);
        if network.failsAt == Some(passes) {
          return ReadFailed, taken;
        }
        if bytesReceived == |arriving| {
          return Finished, taken;
        }
        var size := Min(Min(bytesToRead, network.available(passes)), |arriving| - bytesReceived);
        var data := arriving[bytesReceived..bytesReceived + size];
        assert arriving[..taken] + data == arriving[..taken + size];
        assert local + data == old(local) + arriving[..taken + size];
        local := local + data;
        t := t.(bytesTransfered := t.bytesTransfered + |data|);
        bytesReceived := bytesReceived + |data|;
        taken := taken + size;
        passes := passes + 1;
        if bytesReceived >= filesize {
          return Finished, taken;
        }
      }
    }

    /** The part of _download_file with the file open, and the verdict on the outcome. */
    method CopyArriving(arriving: seq<Byte>, network: Network, now: real) returns (ghost taken: nat, ghost failed: bool)
      requires t.filesize.Some? && Grants(network)
      modifies this
      ensures taken <= |arriving| && (!failed ==> taken == |arriving| || taken >= old(t.filesize.value - t.bytesTransfered))
      ensures failed ==> taken == 0 || taken < old(t.filesize.value - t.bytesTransfered)
      ensures network.failsAt == None ==> !failed
      ensures local == old(local) + arriving[..taken] && t == Ended(old(t), taken, failed, now)
    {
      var received;
      received, taken := ReceiveFile(arriving, network, t.filesize.value - t.bytesTransfered);
      failed := received == ReadFailed;
      if received == ReadFailed {
        t := Step(t, Interrupt, now);
      } else if t.filesize == Some(t.bytesTransfered) {
        t := Step(t, Finish, now);
      } else {
        t := Step(t, Fail(Some(CANCELLED)), now);
      }
    }

    /** _download_file */
    method DownloadFile(attempt: Attempt, now: real)
      requires !attempt.ReplyNotSent? && !attempt.NoFileConnection? && !attempt.OffsetNotSent?
      requires attempt.Connected? ==> Grants(attempt.network) && t.filesize.Some?
      modifies this
      ensures DownloadLeadsTo(Copy(old(t), old(local)), attempt, now, Copy(t, local))
    {
      if t.localPath == None {
        t := t.(localPath := Some(attempt.path));
      }
      if attempt.PathNotCreated? {
        t := Step(t, Fail(Some(FILE_READ_ERROR)), now);
        return;
      }
      t := Step(t, StartTransferring, now);
      if attempt.FileNotOpened? {
        t := Step(t, Fail(Some(FILE_READ_ERROR)), now);
      } else {
        ghost var taken, failed := CopyArriving(attempt.arriving, attempt.network, now);
        assert Copied(Copy(old(t), old(local)), attempt, now, taken, failed, Copy(t, local));
      }
    }

    /** _initialize_download */
    method InitializeDownload(attempt: Attempt, filesize: nat, now: real)
      requires attempt.Connected? ==> Grants(attempt.network)
      modifies this
      ensures AttemptLeadsTo(Copy(old(t), old(local)), attempt, filesize, now, Copy(t, local))
    {
      t := Step(t, Initialize, now);
      t := t.(filesize := Some(filesize));
      if attempt == ReplyNotSent || attempt == NoFileConnection {
        t := Step(t, Queue(false), now);
        return;
      }
      var offset := |local|;
      t := t.(bytesTransfered := offset);
      if attempt == OffsetNotSent {
        // incomplete() is not defined while INITIALIZING
        t := Step(t, Interrupt, now);
        return;
      }
      DownloadFile(attempt, now);
    }

    /** _on_peer_transfer_request, for a download that is in the list: the reason of a refusal that is sent. */
    method OnTransferRequest(attempt: Attempt, filesize: nat, now: real) returns (refusal: Option<string>)
      requires attempt.Connected? ==> Grants(attempt.network)
      modifies this
      ensures refusal == if old(t.state) in {Aborted, Paused} then Some("Cancelled")
                         else if old(t.state) == Complete then Some("Complete") else None
      ensures old(t.state) !in {Virgin, Queued, Incomplete, Failed} ==> t == old(t) && local == old(local)
      ensures old(t.state) in {Virgin, Queued, Incomplete, Failed} ==>
                AttemptLeadsTo(Copy(Requeued(old(t), now), old(local)), attempt, filesize, now, Copy(t, local))
    {
      if t.state == Aborted || t.state == Paused {
        return Some(CANCELLED);
      }
      if t.state == Complete {
        return Some(COMPLETED);
      }
      if IsProcessing(t.state) {
        return None;
      }
      if t.state == Failed {
        t := Step(t, Queue(true), now);
      }
      InitializeDownload(attempt, filesize, now);
      return None;
    }
  }

  // ---------------------------------------------------------------- the downloading side as a value

  datatype Copy = Copy(t: Fields, local: seq<Byte>)

  /** The transfer with the size announced, up to the file connection. */
  function Prepared(t: Fields, filesize: nat, now: real): Fields
  {
    Step(t, Initialize, now).(filesize := Some(filesize))
  }

  /** A request starts an attempt in this state. */
  predicate MayStart(t: Fields)
  {
    t.state !in {Aborted, Paused, Complete} && !IsProcessing(t.state)
  }

  /** A failed transfer is queued before the attempt. */
  function Requeued(t: Fields, now: real): Fields
  {
    if t.state == Failed then Step(t, Queue(true), now) else t
  }

  /** _prepare_download_path, up to the creation of the directory */
  function WithPath(t: Fields, path: string): Fields
  {
    if t.localPath == None then t.(localPath := Some(path)) else t
  }

  /** The transfer when the file is opened. */
  function Begun(t: Fields, path: string, now: real): Fields
  {
    Step(WithPath(t, path), StartTransferring, now)
  }

  /** The end of the attempt after taken bytes. */
  function Ended(begun: Fields, taken: nat, failed: bool, now: real): Fields
  {
    var t := begun.(bytesTransfered := begun.bytesTransfered + taken);
    if failed then Step(t, Interrupt, now)
    else if t.filesize == Some(t.bytesTransfered) then Step(t, Finish, now)
    else Step(t, Fail(Some(CANCELLED)), now)
  }

  /** The first taken bytes have arrived. */
  predicate Copied(d: Copy, a: Attempt, now: real, taken: nat, failed: bool, d': Copy)
    requires a.Connected?
  {
    && d.t.filesize.Some?
    && taken <= |a.arriving|
    && (!failed ==> taken == |a.arriving| || taken >= d.t.filesize.value - d.t.bytesTransfered)
    && (failed ==> taken == 0 || taken < d.t.filesize.value - d.t.bytesTransfered)
    && (a.network.failsAt == None ==> !failed)
    && d' == Copy(Ended(Begun(d.t, a.path, now), taken, failed, now), d.local + a.arriving[..taken])
  }

  ghost predicate DownloadLeadsTo(d: Copy, a: Attempt, now: real, d': Copy)
    requires !a.ReplyNotSent? && !a.NoFileConnection? && !a.OffsetNotSent?
  {
    match a
    case PathNotCreated(path) => d' == Copy(Step(WithPath(d.t, path), Fail(Some(FILE_READ_ERROR)), now), d.local)
    case FileNotOpened(path) =>
      d' == Copy(Step(Begun(d.t, path, now), Fail(Some(FILE_READ_ERROR)), now), d.local)
    case Connected(_, _, _) => exists taken: nat, failed: bool :: Copied(d, a, now, taken, failed, d')
  }

  ghost predicate AttemptLeadsTo(d: Copy, a: Attempt, filesize: nat, now: real, d': Copy)
  {
    var t := Prepared(d.t, filesize, now);
    match a
    case ReplyNotSent => d' == Copy(Step(t, Queue(false), now), d.local)
    case NoFileConnection => d' == Copy(Step(t, Queue(false), now), d.local)
    case OffsetNotSent => d' == Copy(Step(t.(bytesTransfered := |d.local|), Interrupt, now), d.local)
    case _ => DownloadLeadsTo(Copy(t.(bytesTransfered := |d.local|), d.local), a, now, d')
  }

  // ---------------------------------------------------------------- sending

  class Upload {
    var t: Fields

    constructor (t: Fields)
      ensures this.t == t
    {
      this.t := t;
    }

    /** send_file, with the progress callback: until the end of the file or until writing fails. */
    method SendFile(file: seq<Byte>, position: nat, network: Network) returns (sent: seq<Byte>, failed: bool)
      requires Grants(network)
      modifies this
      ensures t == old(t).(bytesTransfered := old(t.bytesTransfered) + |sent|)
      ensures position <= |file| ==> position + |sent| <= |file| && sent == file[position..position + |sent|]
      ensures position > |file| ==> sent == [] && !failed
      ensures position <= |file| && !failed ==> sent == file[position..]
      ensures network.failsAt == None ==> !failed
    {
      sent := [];
      var at := position;
      var passes := 0;
      while true
        invariant at == position + |sent| && (at <= |file| || sent == [])
        invariant position <= |file| ==> at <= |file| && sent == file[position..at]
        invariant t == old(t).(bytesTransfered := old(t.bytesTransfered) + |sent|)
        decreases |file| - at
      {
        var bytesToWrite := network.tokens(passes);
        if at >= |file| {
          return sent, false;
        }
        var data := file[at..Min(at + bytesToWrite, |file|)];
        if network.failsAt == Some(passes) {
          return sent, true;
        }
        assert file[position..at] + data == file[position..at + |data|];
        sent := sent + data;
        at := at + |data|;
        t := t.(bytesTransfered := t.bytesTransfered + |data|);
        passes := passes + 1;
      }
    }

    /** _upload_file from the offset received; file is None when it cannot be opened. */
    method UploadFile(file: Option<seq<Byte>>, offset: nat, network: Network, now: real)
      returns (sent: seq<Byte>, failed: bool)
      requires Grants(network)
      modifies this
      ensures t == UploadEnded(old(t), file.Some?, offset + |sent|, failed, now)
      ensures file.None? || !HasPath(old(t)) ==> sent == [] && !failed
      ensures file.Some? && HasPath(old(t)) && offset <= |file.value| ==>
                && offset + |sent| <= |file.value| && sent == file.value[offset..offset + |sent|]
                && (!failed ==> sent == file.value[offset..])
      ensures network.failsAt == None ==> !failed
    {
      OffsetThenStart(t, offset, now);
      t := t.(bytesTransfered := offset);
      t := Step(t, StartTransferring, now);
      sent, failed := SendOpened(file, offset, network, now);
    }

    /** The part of _upload_file that opens the file, and the verdict on the outcome */
    method SendOpened(file: Option<seq<Byte>>, offset: nat, network: Network, now: real)
      returns (sent: seq<Byte>, failed: bool)
      requires Grants(network)
      modifies this
      ensures t == Concluded(old(t).(bytesTransfered := old(t).bytesTransfered + |sent|), file.Some?, failed, now)
      ensures file.None? || !HasPath(old(t)) ==> sent == [] && !failed
      ensures file.Some? && HasPath(old(t)) && offset <= |file.value| ==>
                && offset + |sent| <= |file.value| && sent == file.value[offset..offset + |sent|]
                && (!failed ==> sent == file.value[offset..])
      ensures network.failsAt == None ==> !failed
    {
      sent, failed := [], false;
      if t.localPath == None || t.localPath == Some("") {
        t := Step(t, Fail(Some(FILE_NOT_SHARED)), now);
        return;
      }
      if file == None {
        t := Step(t, Fail(Some(FILE_READ_ERROR)), now);
        return;
      }
      sent, failed := SendFile(file.value, offset, network);
      if failed {
        t := Step(t, Fail(None), now);
      } else if t.filesize == Some(t.bytesTransfered) {
        t := Step(t, Finish, now);
      } else {
        t := Step(t, Fail(None), now);
      }
    }
  }

  lemma OffsetThenStart(t: Fields, offset: nat, now: real)
    ensures Step(t.(bytesTransfered := offset), StartTransferring, now) ==
            Step(t, StartTransferring, now).(bytesTransfered := offset)
    ensures HasPath(Step(t, StartTransferring, now)) == HasPath(t)
  {
  }

  predicate HasPath(t: Fields)
  {
    t.localPath != None && t.localPath != Some("")
  }

  /** An upload that has come to an end at a position in the file. */
  function UploadEnded(t: Fields, isOpen: bool, position: int, failed: bool, now: real): Fields
  {
    Concluded(Step(t, StartTransferring, now).(bytesTransfered := position), isOpen, failed, now)
  }

  function Concluded(t: Fields, isOpen: bool, failed: bool, now: real): Fields
  {
    if !HasPath(t) then Step(t, Fail(Some(FILE_NOT_SHARED)), now)
    else if !isOpen then Step(t, Fail(Some(FILE_READ_ERROR)), now)
    else if !failed && t.filesize == Some(t.bytesTransfered) then Step(t, Finish, now)
    else Step(t, Fail(None), now)
  }

  /** How an upload ends, at a position in the file */
  lemma UploadEndsAs(t: Fields, isOpen: bool, position: int, failed: bool, now: real)
    requires t.state == Initializing && t.direction == TransferState.Upload
    ensures var t' := UploadEnded(t, isOpen, position, failed, now);
            && t'.bytesTransfered == position && t'.localPath == t.localPath && t'.filesize == t.filesize
            && (t.localPath in {None, Some("")} ==> t'.state == Failed && t'.failReason == Some("File not shared."))
            && (t.localPath !in {None, Some("")} && !isOpen ==> t'.state == Failed && t'.failReason == Some("File read error."))
            && (t.localPath !in {None, Some("")} && isOpen ==>
                  if failed || t.filesize != Some(position) then t'.state == Failed && t'.failReason == None
                  else t'.state == Complete)
  {
  }

  /** An upload ends COMPLETE exactly when the whole file from the offset on could be sent. */
  lemma UploadCompletesExactly(t: Fields, file: seq<Byte>, offset: nat, sent: seq<Byte>, failed: bool, now: real)
    requires t.state == Initializing && t.direction == TransferState.Upload && HasPath(t)
    requires t.filesize == Some(|file|) && offset + |sent| <= |file| && sent == file[offset..offset + |sent|]
    ensures UploadEnded(t, true, offset + |sent|, failed, now).state in {Complete, Failed}
    ensures UploadEnded(t, true, offset + |sent|, failed, now).state == Complete <==> !failed && sent == file[offset..]
  {
    assert sent == file[offset..] <==> |sent| == |file| - offset;
  }
}
