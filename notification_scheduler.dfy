/**
 * NotificationScheduler's MainActivity: turning the screen's controls into a
 * JobScheduler job, and cancelling the jobs again.
 */
module NotificationScheduler {
  import opened Wrappers
  import opened Ints

  const JOB_ID := 0

  /** The checked button of the `networkOptions` radio group. */
  datatype RadioButton = NoNetworkButton | AnyNetworkButton | WifiNetworkButton | OtherButton

  /** `JobInfo.NETWORK_TYPE_NONE`, `_ANY` and `_UNMETERED`. */
  datatype NetworkType = NetworkTypeNone | NetworkTypeAny | NetworkTypeUnmetered

  /** The timing a job was given: none, `setPeriodic` or `setOverrideDeadline`, in milliseconds. */
  datatype Timing = NoTiming | Periodic(intervalMillis: int) | OverrideDeadline(maxDelayMillis: int)

  datatype JobInfo = JobInfo(
    jobId: int,
    requiredNetworkType: NetworkType,
    requiresDeviceIdle: bool,
    requiresCharging: bool,
    timing: Timing)

  /** The state of the controls when "Schedule Job" is pressed. */
  datatype Controls = Controls(
    checkedNetwork: RadioButton,
    idleSwitch: bool,
    chargingSwitch: bool,
    seekBarProgress: Int32,
    periodicSwitch: bool)

  /** A call made on the system JobScheduler. */
  datatype SchedulerCall = Schedule(job: JobInfo) | CancelAll

  datatype Toast = NoIntervalToast | JobScheduledToast | NoConstraintToast | JobsCanceledToast

  /** The system JobScheduler service. */
  datatype JobScheduler = JobSchedulerService

  /** The texts the `seekBarProgress` label can show. */
  datatype ProgressText = SeekBarLabel(progress: Int32) | NotSet

  /** The texts the seek bar's title can show. */
  datatype SwitchText = PeriodicInterval | OverrideDeadlineText

  /** The `when` over the checked radio button; anything else keeps NETWORK_TYPE_NONE. */
  function NetworkOption(checked: RadioButton): NetworkType
  {
    match checked
    case NoNetworkButton => NetworkTypeNone
    case AnyNetworkButton => NetworkTypeAny
    case WifiNetworkButton => NetworkTypeUnmetered
    case OtherButton => NetworkTypeNone
  }

  /** `(seekBarInteger * 1000).toLong()`: the product is taken in 32 bits before widening. */
  function SeekBarMillis(progress: Int32): int
  {
    Mul(progress, 1000)
  }

  /** For every progress the seek bar can reach without overflow, the milliseconds are progress times 1000. */
  lemma SeekBarMillisExact(progress: Int32)
    requires 0 <= progress <= INT_MAX / 1000
    ensures SeekBarMillis(progress) == progress * 1000
  {
  }

  /** The timing the builder ends with: periodic or a deadline when the seek bar is set, none otherwise. */
  function TimingFor(c: Controls): Timing
  {
    if c.seekBarProgress > 0 then
      if c.periodicSwitch then Periodic(SeekBarMillis(c.seekBarProgress))
      else OverrideDeadline(SeekBarMillis(c.seekBarProgress))
    else NoTiming
  }

  /** `constraintSet`: at least one constraint or a timing is set. */
  predicate ConstraintSet(c: Controls)
  {
    NetworkOption(c.checkedNetwork) != NetworkTypeNone || c.chargingSwitch || c.idleSwitch
    || c.seekBarProgress > 0
  }

  /** The seek bar listener: the formatted progress when it is above zero, "not set" otherwise. */
  function ProgressLabel(progress: Int32): (t: ProgressText)
    ensures t.SeekBarLabel? <==> progress > 0
    ensures t.SeekBarLabel? ==> t.progress == progress
  {
    if progress > 0 then SeekBarLabel(progress) else NotSet
  }

  /** The periodic switch listener: the title of the seek bar. */
  function PeriodicSwitchLabel(isChecked: bool): (t: SwitchText)
    ensures t == PeriodicInterval <==> isChecked
    ensures t == OverrideDeadlineText <==> !isChecked
  {
    if isChecked then PeriodicInterval else OverrideDeadlineText
  }

  class MainActivity {
    var mScheduler: Option<JobScheduler>
    /** The calls this activity has made on the system JobScheduler, oldest first. */
    var schedulerCalls: seq<SchedulerCall>

    constructor ()
      ensures mScheduler == None && schedulerCalls == []
    {
      mScheduler := None;
      schedulerCalls := [];
    }

    /**
     * scheduleJob: the scheduler field is always set; a job built from the
     * controls is scheduled exactly when some constraint is set; the toasts
     * report a periodic job without an interval, then whether a job was scheduled.
     */
    method ScheduleJob(c: Controls) returns (toasts: seq<Toast>)
      modifies this
      ensures mScheduler == Some(JobSchedulerService)
      ensures ConstraintSet(c) ==>
                schedulerCalls == old(schedulerCalls) + [Schedule(JobInfo(
                  JOB_ID, NetworkOption(c.checkedNetwork), c.idleSwitch, c.chargingSwitch, TimingFor(c)))]
      ensures !ConstraintSet(c) ==> schedulerCalls == old(schedulerCalls)
      ensures toasts ==
                (if c.periodicSwitch && c.seekBarProgress <= 0 then [NoIntervalToast] else [])
                + (if ConstraintSet(c) then [JobScheduledToast] else [NoConstraintToast])
    {
      mScheduler := Some(JobSchedulerService);
      var selectedNetworkOption := NetworkTypeNone;
      match c.checkedNetwork {
        case NoNetworkButton => selectedNetworkOption := NetworkTypeNone;
        case AnyNetworkButton => selectedNetworkOption := NetworkTypeAny;
        case WifiNetworkButton => selectedNetworkOption := NetworkTypeUnmetered;
        case OtherButton =>
      }
      var builder := JobInfo(JOB_ID, selectedNetworkOption, c.idleSwitch, c.chargingSwitch, NoTiming);
      var seekBarInteger := c.seekBarProgress;
      var seekBarSet := seekBarInteger > 0;
      toasts := [];
      if c.periodicSwitch {
        if seekBarSet {
          builder := builder.(timing := Periodic(Mul(seekBarInteger, 1000)));
        } else {
          toasts := toasts + [NoIntervalToast];
        }
      } else {
        if seekBarSet {
          builder := builder.(timing := OverrideDeadline(Mul(seekBarInteger, 1000)));
        }
      }
      var constraintSet := selectedNetworkOption != NetworkTypeNone || c.chargingSwitch || c.idleSwitch
                           || seekBarSet;
      if constraintSet {
        schedulerCalls := schedulerCalls + [Schedule(builder)];
        toasts := toasts + [JobScheduledToast];
      } else {
        toasts := toasts + [NoConstraintToast];
      }
    }

    /** cancelJobs: nothing without a scheduler; otherwise cancel all jobs and forget the scheduler. */
    method CancelJobs() returns (toasts: seq<Toast>)
      modifies this
      ensures old(mScheduler).None? ==>
                mScheduler == None && schedulerCalls == old(schedulerCalls) && toasts == []
      ensures old(mScheduler).Some? ==>
                mScheduler == None && schedulerCalls == old(schedulerCalls) + [CancelAll]
                && toasts == [JobsCanceledToast]
    {
      toasts := [];
      if mScheduler.Some? {
        schedulerCalls := schedulerCalls + [CancelAll];
        mScheduler := None;
        toasts := [JobsCanceledToast];
      }
    }

    /** Pressing "Cancel Jobs" twice cancels at most once. */
    method CancelJobsTwice() returns (toasts: seq<Toast>)
      modifies this
      ensures mScheduler == None
      ensures schedulerCalls == old(schedulerCalls) + (if old(mScheduler).Some? then [CancelAll] else [])
      ensures toasts == (if old(mScheduler).Some? then [JobsCanceledToast] else [])
    {
      var first := CancelJobs();
      var second := CancelJobs();
      toasts := first + second;
    }
  }

  /** A periodic job without an interval still gets scheduled when another constraint holds. */
  method PeriodicWithoutIntervalStillSchedules(activity: MainActivity, c: Controls) returns (toasts: seq<Toast>)
    requires c.periodicSwitch && c.seekBarProgress == 0 && c.chargingSwitch
    modifies activity
    ensures toasts == [NoIntervalToast, JobScheduledToast]
    ensures activity.schedulerCalls == old(activity.schedulerCalls) + [Schedule(JobInfo(
              JOB_ID, NetworkOption(c.checkedNetwork), c.idleSwitch, true, NoTiming))]
  {
    toasts := activity.ScheduleJob(c);
  }
}
