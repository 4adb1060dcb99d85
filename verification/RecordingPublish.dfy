/**
 Publishing a finished recording: the files of one base name, written, renamed and, on
 any failure, rolled back. Every await can fail; every file system state in between is kept
 in a trace, since a crash may stop at any of them.
 */
module RecordingPublish {
  import opened Identifiers
  import opened RecordingQueue

  datatype FileName = Mp3 | Mp3Partial | Pcm | PcmPartial | Metadata | MetadataPartial | Speaker | SpeakerPartial

  type Files = map<FileName, Bytes>

  /** The data with its start overwritten; data shorter than the frame grows to its length. */
  function Overwritten(data: Bytes, frame: Bytes): (r: Bytes)
    ensures |r| == if |frame| <= |data| then |data| else |frame|
    ensures r[..|frame|] == frame && (|frame| <= |data| ==> r[|frame|..] == data[|frame|..])
  {
    if |frame| <= |data| then frame + data[|frame|..] else frame
  }

  /** A published recording is complete: the MP3 never appears before its companions. */
  predicate Safe(fs: Files) {
    Mp3 in fs ==> Metadata in fs && Pcm in fs
  }

  predicate NothingPublished(fs: Files) {
    Mp3 !in fs && Pcm !in fs && Metadata !in fs && Speaker !in fs
  }

  /**
   The files of one recording and the two handles on its media partials; `faults` says how
   the n-th operation goes. `synced` says of which handles everything written is on disk, and
   `shut` which are closed.
   */
  class Disk {
    var files: Files
    var synced: set<Track>
    var shut: set<Track>
    var clock: nat
    const faults: nat -> Outcome
    ghost var trace: seq<Files>

    constructor (files: Files, faults: nat -> Outcome)
      ensures this.files == files && this.faults == faults && clock == 0 && trace == [files] && synced == {} && shut == {}
    {
      this.files, this.faults, this.clock, this.synced, this.shut := files, faults, 0, {}, {};
      this.trace := [files];
    }

    /** Every state seen so far, the present one last, was safe. */
    ghost predicate AllSafe()
      reads this
    {
      trace != [] && trace[|trace| - 1] == files && forall i :: 0 <= i < |trace| ==> Safe(trace[i])
    }

    /** No operation since the n-th went wrong. */
    ghost predicate AllWorkedSince(n: nat)
      reads this`clock
    {
      n <= clock && forall i: nat :: n <= i < clock ==> faults(i).Works?
    }

    /** From this operation on, nothing goes wrong any more. */
    ghost predicate CalmFrom(n: nat) {
      forall i: nat :: i >= n ==> faults(i).Works?
    }

    method Advance(after: Files)
      requires AllSafe() && Safe(after)
      modifies this`files, this`clock, this`trace
      ensures AllSafe() && files == after && clock == old(clock) + 1
    {
      files := after;
      clock := clock + 1;
      trace := trace + [after];
    }

    /** Appends to the MP3 partial; a failing write may leave a first part of the data, a closed handle takes none. */
    method WriteFile(data: Bytes) returns (ok: bool)
      requires AllSafe() && Mp3Partial in files
      modifies this`files, this`clock, this`trace, this`synced
      ensures AllSafe() && clock == old(clock) + 1 && ok == (faults(old(clock)).Works? && Mp3Track !in shut)
      ensures ok ==> files == old(files)[Mp3Partial := old(files)[Mp3Partial] + data]
      ensures Mp3Partial in files && files - {Mp3Partial} == old(files) - {Mp3Partial}
      ensures synced == old(synced) - {Mp3Track}
    {
      synced := synced - {Mp3Track};
      if Mp3Track in shut {
        Advance(files);
        return false;
      }
      var outcome := faults(clock);
      ok := outcome.Works?;
      var reached := if ok then data else if outcome.written <= |data| then data[..outcome.written] else data;
      Advance(files[Mp3Partial := files[Mp3Partial] + reached]);
    }

    /** Writes at the start of the MP3 partial; a failing write may have written any first part. */
    method WriteAtStart(frame: Bytes) returns (ok: bool)
      requires AllSafe() && Mp3Partial in files
      modifies this`files, this`clock, this`trace, this`synced
      ensures AllSafe() && clock == old(clock) + 1 && ok == (faults(old(clock)).Works? && Mp3Track !in shut)
      ensures ok ==> files == old(files)[Mp3Partial := Overwritten(old(files)[Mp3Partial], frame)]
      ensures Mp3Partial in files && files - {Mp3Partial} == old(files) - {Mp3Partial}
      ensures synced == old(synced) - {Mp3Track}
    {
      synced := synced - {Mp3Track};
      if Mp3Track in shut {
        Advance(files);
        return false;
      }
      var outcome := faults(clock);
      ok := outcome.Works?;
      var reached := if ok then frame else if outcome.written <= |frame| then frame[..outcome.written] else frame;
      Advance(files[Mp3Partial := Overwritten(files[Mp3Partial], reached)]);
    }

    /** Brings what was written through a handle to disk; a closed handle cannot. */
    method Sync(track: Track) returns (ok: bool)
      requires AllSafe()
      modifies this`files, this`clock, this`trace, this`synced
      ensures AllSafe() && clock == old(clock) + 1 && files == old(files)
      ensures ok == (faults(old(clock)).Works? && track !in shut)
      ensures synced == if ok then old(synced) + {track} else old(synced)
    {
      ok := faults(clock).Works? && track !in shut;
      if ok {
        synced := synced + {track};
      }
      Advance(files);
    }

    /** Closes a handle; closing it again is harmless. */
    method Close(track: Track) returns (ok: bool)
      requires AllSafe()
      modifies this`files, this`clock, this`trace, this`shut
      ensures AllSafe() && clock == old(clock) + 1 && files == old(files)
      ensures ok == faults(old(clock)).Works?
      ensures shut == if ok then old(shut) + {track} else old(shut)
    {
      ok := faults(clock).Works?;
      if ok {
        shut := shut + {track};
      }
      Advance(files);
    }

    /** Creates a file exclusively; fails untouched if it exists, and may fail leaving a first part. */
    method Create(name: FileName, data: Bytes) returns (ok: bool)
      requires AllSafe() && (name == MetadataPartial || name == SpeakerPartial)
      modifies this`files, this`clock, this`trace
      ensures AllSafe() && clock == old(clock) + 1
      ensures ok == (faults(old(clock)).Works? && name !in old(files))
      ensures ok ==> files == old(files)[name := data]
      ensures files - {name} == old(files) - {name}
    {
      var outcome := faults(clock);
      if name in files {
        Advance(files);
        return false;
      }
      ok := outcome.Works?;
      var reached := if ok then data else if outcome.written <= |data| then data[..outcome.written] else data;
      Advance(files[name := reached]);
    }

    method RenameFile(source: FileName, target: FileName) returns (ok: bool)
      requires AllSafe() && source in files && source != target
      requires Safe(files[target := files[source]] - {source})
      modifies this`files, this`clock, this`trace
      ensures AllSafe() && clock == old(clock) + 1 && ok == faults(old(clock)).Works?
      ensures files == if ok then old(files)[target := old(files)[source]] - {source} else old(files)
    {
      ok := faults(clock).Works?;
      Advance(if ok then files[target := files[source]] - {source} else files);
    }

    /** Removes a file if it is there. */
    method Remove(name: FileName) returns (ok: bool)
      requires AllSafe() && Safe(files - {name})
      modifies this`files, this`clock, this`trace
      ensures AllSafe() && clock == old(clock) + 1 && ok == faults(old(clock)).Works?
      ensures files == if ok then old(files) - {name} else old(files)
    {
      ok := faults(clock).Works?;
      Advance(if ok then files - {name} else files);
    }
  }

  datatype Options = Options(finalFrame: Bytes, lametagFrame: Bytes, metadata: Bytes, speakerLog: Option<Bytes>)

  /**
   Which renames went through before the failure. The rename of the MP3 is the last
   operation that can fail, so the catch block never finds it done.
   */
  datatype Renames = Renames(pcm: bool, speaker: bool, metadata: bool)

  function FinishedMp3(data: Bytes, options: Options): Bytes {
    Overwritten(data + options.finalFrame, options.lametagFrame)
  }

  function WithSidecars(fs: Files, options: Options): Files {
    var m := fs[MetadataPartial := options.metadata];
    if options.speakerLog.Some? then m[SpeakerPartial := options.speakerLog.value] else m
  }

  /** The partials taken over under their final names. */
  function Renamed(fs: Files, hasSpeakerLog: bool): Files
    requires Mp3Partial in fs && PcmPartial in fs && MetadataPartial in fs && (hasSpeakerLog ==> SpeakerPartial in fs)
  {
    var m := fs[Pcm := fs[PcmPartial]] - {PcmPartial};
    var s := if hasSpeakerLog then m[Speaker := m[SpeakerPartial]] - {SpeakerPartial} else m;
    var d := s[Metadata := s[MetadataPartial]] - {MetadataPartial};
    d[Mp3 := d[Mp3Partial]] - {Mp3Partial}
  }

  /** The published recording: chunks and final frame with the lametag over their start, and its companions. */
  predicate Published(before: Files, options: Options, after: Files)
    requires Mp3Partial in before && PcmPartial in before
  {
    && Mp3 in after && after[Mp3] == Overwritten(before[Mp3Partial] + options.finalFrame, options.lametagFrame)
    && Pcm in after && after[Pcm] == before[PcmPartial]
    && Metadata in after && after[Metadata] == options.metadata
    && (Speaker in after <==> options.speakerLog.Some?)
    && (options.speakerLog.Some? ==> after[Speaker] == options.speakerLog.value)
    && Mp3Partial !in after && PcmPartial !in after && MetadataPartial !in after
    && (SpeakerPartial in after ==> options.speakerLog.None? && SpeakerPartial in before)
  }

  /** Both media partials back, the PCM untouched, and nothing else left of the attempt. */
  predicate RolledBack(before: Files, after: Files)
    requires PcmPartial in before
  {
    && after.Keys == {Mp3Partial, PcmPartial}
    && after[PcmPartial] == before[PcmPartial]
  }

  /** What holds while finalizing, for the renames done so far. */
  predicate Midway(fs: Files, r: Renames, pcm: Bytes) {
    && Mp3 !in fs && Mp3Partial in fs
    && (Pcm in fs <==> r.pcm) && (PcmPartial in fs <==> !r.pcm)
    && fs[if r.pcm then Pcm else PcmPartial] == pcm
    && (Metadata in fs <==> r.metadata) && (Speaker in fs <==> r.speaker)
  }

  lemma SidecarsRenamed(before: Files, options: Options)
    requires NothingPublished(before) && Mp3Partial in before && PcmPartial in before
    ensures var m := before[Mp3Partial := FinishedMp3(before[Mp3Partial], options)];
            Published(before, options, Renamed(WithSidecars(m, options), options.speakerLog.Some?))
  {
    hide Overwritten;
  }

  /** Waits for the queued writes, appends the final frame and overwrites the start. */
  method FinishMp3(disk: Disk, options: Options, writesFailed: bool) returns (ok: bool)
    requires disk.AllSafe() && NothingPublished(disk.files) && Mp3Partial in disk.files
    modifies disk
    ensures disk.AllSafe() && Mp3Partial in disk.files && disk.shut == old(disk.shut)
    ensures disk.files - {Mp3Partial} == old(disk.files) - {Mp3Partial}
    ensures writesFailed ==> !ok && disk.files == old(disk.files)
    ensures ok ==> disk.files == old(disk.files)[Mp3Partial := FinishedMp3(old(disk.files)[Mp3Partial], options)]
    ensures ok ==> disk.AllWorkedSince(old(disk.clock))
    ensures old(disk.CalmFrom(disk.clock)) ==> ok == (!writesFailed && Mp3Track !in old(disk.shut))
    ensures disk.clock >= old(disk.clock) && (ok ==> Mp3Track !in disk.shut)
  {
    hide Overwritten;
    if writesFailed { return false; }
    ghost var mp3 := disk.files[Mp3Partial];
    if |options.finalFrame| > 0 {
      ok := disk.WriteFile(options.finalFrame);
      if !ok { return; }
    }
    assert disk.files[Mp3Partial] == mp3 + options.finalFrame;
    ok := disk.WriteAtStart(options.lametagFrame);
  }

  /** Creates the companions' partials. */
  method WriteSidecars(disk: Disk, options: Options) returns (ok: bool)
    requires disk.AllSafe()
    modifies disk`files, disk`clock, disk`trace
    ensures disk.AllSafe()
    ensures disk.files - {MetadataPartial, SpeakerPartial} == old(disk.files) - {MetadataPartial, SpeakerPartial}
    ensures ok ==> disk.files == WithSidecars(old(disk.files), options)
    ensures ok ==> disk.AllWorkedSince(old(disk.clock))
    ensures old(disk.CalmFrom(disk.clock)) ==>
              ok == (MetadataPartial !in old(disk.files) && (options.speakerLog.Some? ==> SpeakerPartial !in old(disk.files)))
    ensures disk.clock >= old(disk.clock)
  {
    ghost var before := disk.files;
    ok := disk.Create(MetadataPartial, options.metadata);
    assert disk.files - {MetadataPartial, SpeakerPartial} == (disk.files - {MetadataPartial}) - {SpeakerPartial};
    assert before - {MetadataPartial, SpeakerPartial} == (before - {MetadataPartial}) - {SpeakerPartial};
    if !ok { return; }
    if options.speakerLog.Some? {
      ghost var between := disk.files;
      ok := disk.Create(SpeakerPartial, options.speakerLog.value);
      assert disk.files - {MetadataPartial, SpeakerPartial} == (disk.files - {SpeakerPartial}) - {MetadataPartial};
      assert between - {MetadataPartial, SpeakerPartial} == (between - {SpeakerPartial}) - {MetadataPartial};
    }
  }

  /** Syncs the media, creates the companions' partials and closes the handles. */
  method SettlePartials(disk: Disk, options: Options) returns (ok: bool)
    requires disk.AllSafe()
    modifies disk
    ensures disk.AllSafe()
    ensures disk.files - {MetadataPartial, SpeakerPartial} == old(disk.files) - {MetadataPartial, SpeakerPartial}
    ensures ok ==> disk.files == WithSidecars(old(disk.files), options)
    ensures ok ==> disk.synced >= {Mp3Track, PcmTrack} && disk.shut >= {Mp3Track, PcmTrack} && old(disk.shut) == {}
    ensures ok ==> disk.AllWorkedSince(old(disk.clock))
    ensures old(disk.CalmFrom(disk.clock)) ==>
              ok == (old(disk.shut) == {} && MetadataPartial !in old(disk.files)
                     && (options.speakerLog.Some? ==> SpeakerPartial !in old(disk.files)))
    ensures disk.clock >= old(disk.clock)
  {
    hide WithSidecars;
    ghost var open := disk.shut;
    ok := disk.Sync(Mp3Track);
    if !ok { return; }
    ok := disk.Sync(PcmTrack);
    if !ok { return; }
    assert open == {} by { NoneShut(open); }
    ok := WriteSidecars(disk, options);
    if !ok { return; }
    ok := disk.Close(Mp3Track);
    if !ok { return; }
    ok := disk.Close(PcmTrack);
  }

  lemma NoneShut(shut: set<Track>)
    requires Mp3Track !in shut && PcmTrack !in shut
    ensures shut == {}
  {
    forall track | track in shut ensures track in {Mp3Track, PcmTrack} {
      match track { case Mp3Track => case PcmTrack => }
    }
    assert shut <= {Mp3Track, PcmTrack};
  }

  /** The renames, PCM first and MP3 last. */
  method RenameAll(disk: Disk, hasSpeakerLog: bool) returns (ok: bool, renames: Renames)
    requires disk.AllSafe() && NothingPublished(disk.files) && Mp3Partial in disk.files && PcmPartial in disk.files
    requires MetadataPartial in disk.files && (hasSpeakerLog ==> SpeakerPartial in disk.files)
    requires disk.synced >= {Mp3Track, PcmTrack} && disk.shut >= {Mp3Track, PcmTrack}
    modifies disk`files, disk`clock, disk`trace
    ensures disk.AllSafe()
    ensures ok ==> disk.AllWorkedSince(old(disk.clock))
    ensures !ok ==> Midway(disk.files, renames, old(disk.files)[PcmPartial])
    ensures ok ==> disk.files == Renamed(old(disk.files), hasSpeakerLog)
    ensures old(disk.CalmFrom(disk.clock)) ==> ok
    ensures disk.clock >= old(disk.clock)
  {
    renames := Renames(false, false, false);
    ok := disk.RenameFile(PcmPartial, Pcm);
    if !ok { return; }
    renames := renames.(pcm := true);
    if hasSpeakerLog {
      ok := disk.RenameFile(SpeakerPartial, Speaker);
      if !ok { return; }
      renames := renames.(speaker := true);
    }
    ok := disk.RenameFile(MetadataPartial, Metadata);
    if !ok { return; }
    renames := renames.(metadata := true);
    ok := disk.RenameFile(Mp3Partial, Mp3);
  }

  /** Moves the PCM back to its partial, if its rename went through. */
  method ReturnPcm(disk: Disk, renames: Renames, ghost pcm: Bytes)
    requires disk.AllSafe() && Midway(disk.files, renames, pcm)
    modifies disk`files, disk`clock, disk`trace
    ensures disk.AllSafe() && disk.clock >= old(disk.clock)
    ensures Mp3 !in disk.files && Mp3Partial in disk.files && disk.files[Mp3Partial] == old(disk.files)[Mp3Partial]
    ensures old(disk.CalmFrom(disk.clock)) ==> Midway(disk.files, renames.(pcm := false), pcm)
  {
    if renames.pcm {
      var _ := disk.RenameFile(Pcm, PcmPartial);
    }
  }

  /** Removes a file of the attempt; with an MP3 unpublished that is always safe. */
  method Discard(disk: Disk, name: FileName)
    requires disk.AllSafe() && Mp3 !in disk.files && name != Mp3Partial && name != PcmPartial
    modifies disk`files, disk`clock, disk`trace
    ensures disk.AllSafe() && disk.clock >= old(disk.clock)
    ensures disk.files == old(disk.files) || disk.files == old(disk.files) - {name}
    ensures old(disk.CalmFrom(disk.clock)) ==> disk.files == old(disk.files) - {name}
  {
    var _ := disk.Remove(name);
  }

  /** Undoes the renames and removes what the attempt made. */
  method RestoreFiles(disk: Disk, renames: Renames, ghost before: Files)
    requires disk.AllSafe() && PcmPartial in before && Midway(disk.files, renames, before[PcmPartial])
    modifies disk`files, disk`clock, disk`trace
    ensures disk.AllSafe()
    ensures old(disk.CalmFrom(disk.clock)) ==> RolledBack(before, disk.files)
    ensures Mp3 !in disk.files && Mp3Partial in disk.files && disk.files[Mp3Partial] == old(disk.files)[Mp3Partial]
  {
    ReturnPcm(disk, renames, before[PcmPartial]);
    ghost var calm := old(disk.CalmFrom(disk.clock));
    if renames.metadata {
      Discard(disk, Metadata);
    }
    assert calm ==> Metadata !in disk.files && Pcm !in disk.files;
    if renames.speaker {
      Discard(disk, Speaker);
    }
    assert calm ==> NothingPublished(disk.files);
    Discard(disk, MetadataPartial);
    Discard(disk, SpeakerPartial);
    if calm {
      OnlyMediaLeft(disk.files);
    }
  }

  /** The catch block; each cleanup call's own failure is ignored. */
  method RollBack(disk: Disk, renames: Renames, ghost before: Files)
    requires disk.AllSafe() && PcmPartial in before && Midway(disk.files, renames, before[PcmPartial])
    modifies disk
    ensures disk.AllSafe()
    ensures old(disk.CalmFrom(disk.clock)) ==> RolledBack(before, disk.files) && disk.shut >= {Mp3Track, PcmTrack}
    ensures Mp3 !in disk.files && Mp3Partial in disk.files && disk.files[Mp3Partial] == old(disk.files)[Mp3Partial]
  {
    hide Midway, RolledBack;
    var _ := disk.Close(Mp3Track);
    var _ := disk.Close(PcmTrack);
    RestoreFiles(disk, renames, before);
  }

  lemma OnlyMediaLeft(fs: Files)
    requires NothingPublished(fs) && MetadataPartial !in fs && SpeakerPartial !in fs
    ensures fs.Keys <= {Mp3Partial, PcmPartial}
  {
    forall name | name in fs ensures name == Mp3Partial || name == PcmPartial {
      match name {
        case Mp3 => case Pcm => case Metadata => case Speaker =>
        case Mp3Partial => case PcmPartial => case MetadataPartial => case SpeakerPartial =>
      }
    }
  }

  /** Everything in the try block. */
  method TryPublish(disk: Disk, options: Options, writesFailed: bool) returns (ok: bool, renames: Renames)
    requires disk.AllSafe() && NothingPublished(disk.files) && Mp3Partial in disk.files && PcmPartial in disk.files
    modifies disk
    ensures disk.AllSafe()
    ensures ok ==> Published(old(disk.files), options, disk.files)
    ensures !ok ==> Midway(disk.files, renames, old(disk.files)[PcmPartial])
    ensures writesFailed ==> !ok && disk.files == old(disk.files)
    ensures ok ==> disk.synced >= {Mp3Track, PcmTrack} && disk.shut >= {Mp3Track, PcmTrack} && old(disk.shut) == {}
    ensures ok ==> disk.AllWorkedSince(old(disk.clock))
    ensures old(disk.CalmFrom(disk.clock)) ==>
              ok == (!writesFailed && old(disk.shut) == {} && MetadataPartial !in old(disk.files)
                     && (options.speakerLog.Some? ==> SpeakerPartial !in old(disk.files)))
  {
    hide Published, Renamed, WithSidecars, FinishedMp3;
    ghost var before := disk.files;
    renames := Renames(false, false, false);
    ok := FinishMp3(disk, options, writesFailed);
    assert disk.files - {Mp3Partial} == before - {Mp3Partial};
    if !ok { MediaUntouched(before, disk.files, {Mp3Partial}); return; }
    ghost var finished := disk.files;
    ok := SettlePartials(disk, options);
    MediaUntouched(finished, disk.files, {MetadataPartial, SpeakerPartial});
    if !ok { return; }
    SidecarsThere(finished, options);
    SidecarsRenamed(before, options);
    ok, renames := RenameAll(disk, options.speakerLog.Some?);
  }

  lemma MediaUntouched(before: Files, after: Files, changed: set<FileName>)
    requires before - changed == after - changed
    ensures forall name :: name !in changed ==>
              (name in before <==> name in after) && (name in before ==> before[name] == after[name])
  {
    forall name | name !in changed
      ensures (name in before <==> name in after) && (name in before ==> before[name] == after[name])
    {
      assert name in before <==> name in before - changed;
      assert name in after <==> name in after - changed;
    }
  }

  lemma SidecarsThere(fs: Files, options: Options)
    ensures MetadataPartial in WithSidecars(fs, options)
    ensures options.speakerLog.Some? ==> SpeakerPartial in WithSidecars(fs, options)
  {
  }

  /**
   Publishing is all or nothing. The disk is safe in every state on the way, rollback
   included and whatever fails; success publishes the whole recording, synced and closed, with
   no failure passed over; and if the operations of the catch block succeed, failure leaves
   just the two media partials, and closed handles with which it cannot be tried again.
   */
  method Finalize(disk: Disk, options: Options, writesFailed: bool) returns (ok: bool, ghost thrownAt: nat)
    requires disk.AllSafe() && NothingPublished(disk.files) && Mp3Partial in disk.files && PcmPartial in disk.files
    modifies disk
    ensures disk.AllSafe()
    ensures ok ==> Published(old(disk.files), options, disk.files)
    ensures !ok ==> Mp3 !in disk.files && Mp3Partial in disk.files
    ensures !ok && disk.CalmFrom(thrownAt) ==> RolledBack(old(disk.files), disk.files) && disk.shut >= {Mp3Track, PcmTrack}
    ensures ok ==> disk.synced >= {Mp3Track, PcmTrack} && disk.shut >= {Mp3Track, PcmTrack} && old(disk.shut) == {}
    ensures ok ==> disk.AllWorkedSince(old(disk.clock))
    ensures writesFailed ==> !ok && Mp3Partial in disk.files && disk.files[Mp3Partial] == old(disk.files)[Mp3Partial]
    ensures old(disk.CalmFrom(disk.clock)) ==>
              ok == (!writesFailed && old(disk.shut) == {} && MetadataPartial !in old(disk.files)
                     && (options.speakerLog.Some? ==> SpeakerPartial !in old(disk.files)))
  {
    hide Published, RolledBack, Midway;
    ghost var before := disk.files;
    var renames: Renames;
    ok, renames := TryPublish(disk, options, writesFailed);
    thrownAt := disk.clock;
    if !ok {
      RollBack(disk, renames, before);
    }
  }

  /**
   With the queue drained and no write failed, what is published is what was accepted: the
   accepted MP3 chunks in order and the final frame, their start overwritten by the lametag,
   beside the accepted PCM chunks in order.
   */
  lemma PublishesWhatWasAccepted(limit: nat, qs: seq<Queue>, es: seq<Event>, before: Files, options: Options, after: Files)
    requires Run(qs, es) && qs[0] == Opened(limit)
    requires qs[|es|].chain == [] && !qs[|es|].failed
    requires Mp3Partial in before && PcmPartial in before
    requires before[Mp3Partial] == qs[|es|].mp3 && before[PcmPartial] == qs[|es|].pcm
    requires Published(before, options, after)
    ensures var accepted := Accepted(qs, es, |es|);
            && Mp3 in after && Pcm in after
            && after[Pcm] == Projection(accepted, PcmTrack)
            && var whole := Projection(accepted, Mp3Track) + options.finalFrame;
               var lametag := options.lametagFrame;
            && |after[Mp3]| == (if |lametag| <= |whole| then |whole| else |lametag|)
            && lametag <= after[Mp3]
            && (|lametag| <= |whole| ==> after[Mp3][|lametag|..] == whole[|lametag|..])
  {
    var whole, torn := FilesFollowAcceptedPrefix(limit, qs, es, |es|);
    var accepted := Accepted(qs, es, |es|);
    assert accepted[..whole] + torn == accepted;
  }
}
