/** One local device capture: fields updated in place, each method one event of MediaCaptureModel. */
module MediaCapture {
  import opened Common
  import opened MediaCaptureModel

  class MediaCapture {
    var state: CaptureState
    var stream: Option<StreamId>
    var hasTrack: bool
    var deviceId: Option<Device>
    var currentRequestId: RequestId
    var pendingRetryTimer: bool
    // Suspended calls of start, and the streams the browser handed out.
    var requests: map<RequestId, Option<Device>>
    var acquired: seq<bool>
    ghost var installed: set<RequestId>

    ghost function Abs(): State
      reads this
    {
      State(state, stream, hasTrack, deviceId, currentRequestId, pendingRetryTimer, requests, acquired, installed)
    }

    ghost predicate Valid()
      reads this
    {
      Sound(Abs())
    }

    constructor ()
      ensures Valid() && Abs() == INITIAL
    {
      state, stream, hasTrack, deviceId, currentRequestId, pendingRetryTimer := Stopped, None, false, None, 0, false;
      requests, acquired, installed := map[], [], {};
    }

    /** Up to the await of getUserMedia. */
    method Start(device: Option<Device>) returns (requestId: RequestId)
      modifies this
      ensures Abs() == Starts(old(Abs()), device) && requestId == currentRequestId
    {
      currentRequestId := currentRequestId + 1;
      requestId := currentRequestId;
      pendingRetryTimer := false;
      state := Starting;
      requests := requests[requestId := device];
    }

    method StopCurrentStream()
      modifies this
      ensures Abs() == StopCurrent(old(Abs()))
    {
      if stream.Some? {
        if stream.value < |acquired| {
          acquired := acquired[stream.value := true];
        }
        stream := None;
      }
      hasTrack := false;
    }

    /** A user start; see Start. */
    method UserStart(device: Option<Device>) returns (requestId: RequestId)
      requires Valid()
      modifies this
      ensures Valid() && Abs() == Step(old(Abs()), Event.Start(device))
    {
      StepSound(Abs(), Event.Start(device));
      hide Sound;
      requestId := Start(device);
    }

    /** getUserMedia resolved; `trackDevice` is None when the stream has no track of this kind. */
    method Resolved(r: RequestId, trackDevice: Option<Option<Device>>) returns (started: bool)
      requires Valid() && Possible(Abs(), Event.Resolved(r, trackDevice))
      modifies this
      ensures Valid() && Abs() == Step(old(Abs()), Event.Resolved(r, trackDevice))
      ensures started <==> old(currentRequestId) == r && trackDevice.Some?
    {
      StepSound(Abs(), Event.Resolved(r, trackDevice));
      hide Sound;
      var asked := requests[r];
      requests := requests - {r};
      if r != currentRequestId {
        acquired := acquired + [true];
        return false;
      }
      if trackDevice.None? {
        acquired := acquired + [true];
        state := NoDevice;
        return false;
      }
      StopCurrentStream();
      stream := Some(|acquired|);
      acquired := acquired + [false];
      hasTrack := true;
      deviceId := if trackDevice.value.Some? then trackDevice.value else asked;
      installed := installed + {r};
      state := Active;
      started := true;
    }

    /** getUserMedia rejected. */
    method Rejected(r: RequestId, failure: Failure)
      requires Valid() && Possible(Abs(), Event.Rejected(r, failure))
      modifies this
      ensures Valid() && Abs() == Step(old(Abs()), Event.Rejected(r, failure))
    {
      StepSound(Abs(), Event.Rejected(r, failure));
      hide Sound;
      var asked := requests[r];
      requests := requests - {r};
      if asked.Some? && DeviceMissing(failure) {
        var retry := Start(None);
        return;
      }
      if r != currentRequestId { return; }
      state := Classify(failure);
      if state == DeviceInUse && !pendingRetryTimer {
        pendingRetryTimer := true;
      }
    }

    method Stop()
      requires Valid()
      modifies this
      ensures Valid() && Abs() == Step(old(Abs()), Event.Stop)
    {
      StepSound(Abs(), Event.Stop);
      hide Sound;
      currentRequestId := currentRequestId + 1;
      pendingRetryTimer := false;
      StopCurrentStream();
      state := Stopped;
    }

    method SwitchDevice(to: Device) returns (requestId: RequestId)
      requires Valid()
      modifies this
      ensures Valid() && Abs() == Step(old(Abs()), Event.SwitchDevice(to))
    {
      StepSound(Abs(), Event.SwitchDevice(to));
      hide Sound;
      pendingRetryTimer := false;
      StopCurrentStream();
      requestId := Start(Some(to));
    }

    method RetryTimerFires() returns (requestId: RequestId)
      requires Valid() && pendingRetryTimer
      modifies this
      ensures Valid() && Abs() == Step(old(Abs()), TimerFires)
    {
      StepSound(Abs(), TimerFires);
      hide Sound;
      pendingRetryTimer := false;
      requestId := Start(deviceId);
    }

    /** The listener a request left on its track. */
    method TrackEnded(r: RequestId)
      requires Valid() && r in installed
      modifies this
      ensures Valid() && Abs() == Step(old(Abs()), Event.TrackEnded(r))
    {
      StepSound(Abs(), Event.TrackEnded(r));
      hide Sound;
      if r == currentRequestId {
        deviceId := None;
        state := DeviceNotFound;
      }
    }
  }
}
