/** The recorder behind the session: one file at a time, pause and resume into the same file. */
module RecordingLifecycle {
  import opened Wrappers
  import opened Frames

  datatype RecorderState = RecorderIdle | RecorderRecording | RecorderPaused

  datatype Recorder = Recorder(
    state: RecorderState, videoPath: string, thumbnailPath: string, lastFrame: Option<Frame>)

  datatype StopResult = StopResult(success: bool, filePath: string, thumbnailWritten: bool)

  const NO_RECORDING := Recorder(RecorderIdle, "", "", None)

  /** An idle recorder has no leftovers; an active one has a file. */
  ghost predicate RecorderOk(r: Recorder) {
    if r.state == RecorderIdle then r == NO_RECORDING else r.videoPath != ""
  }

  predicate CanStart(r: Recorder, videoPath: string, enoughSpace: bool, starts: bool) {
    r.state == RecorderIdle && videoPath != "" && enoughSpace && starts
  }

  function Started(r: Recorder, videoPath: string, thumbnailPath: string): Recorder {
    r.(state := RecorderRecording, videoPath := videoPath, thumbnailPath := thumbnailPath)
  }

  function StopOutcome(r: Recorder, stops: bool, thumbnailWrites: bool): StopResult {
    if r.state == RecorderIdle then StopResult(false, "", false)
    else StopResult(stops, r.videoPath, r.lastFrame.Some? && r.thumbnailPath != "" && thumbnailWrites)
  }

  function Pushed(r: Recorder, frame: Frame): Recorder {
    if r.state == RecorderIdle then r else r.(lastFrame := Some(frame))
  }

  /** The muxer, the thumbnail writer and the disk guard are outcomes passed in by the caller. */
  class RecordingService {
    var state: RecorderState
    var videoPath: string
    var thumbnailPath: string
    var lastFrame: Option<Frame>

    ghost function Contents(): Recorder
      reads this
    {
      Recorder(state, videoPath, thumbnailPath, lastFrame)
    }

    constructor ()
      ensures Contents() == NO_RECORDING
    {
      state, videoPath, thumbnailPath, lastFrame := RecorderIdle, "", "", None;
    }

    /** A start that fails leaves the recorder as it was. */
    method StartRecording(video: string, thumbnail: string, enoughSpace: bool, starts: bool) returns (ok: bool)
      requires RecorderOk(Contents())
      modifies this
      ensures RecorderOk(Contents())
      ensures ok <==> CanStart(old(Contents()), video, enoughSpace, starts)
      ensures Contents() == if ok then Started(old(Contents()), video, thumbnail) else old(Contents())
      ensures ok <==> old(state) == RecorderIdle && video != "" && enoughSpace && starts
      ensures ok ==> state == RecorderRecording && videoPath == video && thumbnailPath == thumbnail && lastFrame == None
    {
      if state != RecorderIdle {
        return false;
      }
      if video == "" {
        return false;
      }
      if !enoughSpace {
        return false;
      }
      videoPath := video;
      thumbnailPath := thumbnail;
      if !starts {
        videoPath := "";
        thumbnailPath := "";
        return false;
      }
      state := RecorderRecording;
      return true;
    }

    method Pause() returns (ok: bool)
      modifies this`state
      ensures ok <==> old(state) == RecorderRecording
      ensures state == if ok then RecorderPaused else old(state)
    {
      if state != RecorderRecording {
        return false;
      }
      state := RecorderPaused;
      return true;
    }

    method Resume() returns (ok: bool)
      modifies this`state
      ensures ok <==> old(state) == RecorderPaused
      ensures state == if ok then RecorderRecording else old(state)
    {
      if state != RecorderPaused {
        return false;
      }
      state := RecorderRecording;
      return true;
    }

    /** Whatever the muxer says, the recorder is idle afterwards; stopping an idle one changes nothing. */
    method Stop(stops: bool, thumbnailWrites: bool) returns (result: StopResult)
      requires RecorderOk(Contents())
      modifies this
      ensures result == StopOutcome(old(Contents()), stops, thumbnailWrites)
      ensures Contents() == NO_RECORDING
      ensures state == RecorderIdle && videoPath == "" && thumbnailPath == "" && lastFrame == None
      ensures old(state) == RecorderIdle ==> !result.success && result.filePath == "" && !result.thumbnailWritten
      ensures old(state) != RecorderIdle ==> (result.success <==> stops) && result.filePath == old(videoPath)
      ensures result.thumbnailWritten <==>
                old(state) != RecorderIdle && old(lastFrame).Some? && old(thumbnailPath) != "" && thumbnailWrites
    {
      if state == RecorderIdle {
        return StopResult(false, "", false);
      }
      var written := false;
      if lastFrame.Some? && thumbnailPath != "" {
        written := thumbnailWrites;
      }
      var file := videoPath;
      state := RecorderIdle;
      videoPath := "";
      thumbnailPath := "";
      lastFrame := None;
      return StopResult(stops, file, written);
    }

    method Push(frame: Frame)
      modifies this`lastFrame
      ensures Contents() == Pushed(old(Contents()), frame)
      ensures lastFrame == if old(state) == RecorderIdle then old(lastFrame) else Some(frame)
    {
      if state == RecorderIdle {
        return;
      }
      lastFrame := Some(frame);
    }
  }
}
