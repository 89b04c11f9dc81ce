/** The settings the two collectors are built from. */
module Settings {

  type Positive = n: nat | 1 <= n witness 1

  datatype Config = Config(
    deployment: bool,                       // otherwise DaemonSet
    currentNode: string,                    // the node a DaemonSet pod runs on
    scrapeFromKubelet: bool,
    adjustedPollingRate: bool,
    nodeAvailable: bool,
    nodeCapacity: bool,
    nodePercentage: bool,
    podUsage: bool,
    inodes: bool,
    containerVolumeUsage: bool,
    containerLimitsPercentage: bool,
    containerVolumeLimitsPercentage: bool,
    containerRootfsUsage: bool,
    containerLogsUsage: bool,
    scrapeMissTolerance: Positive)
  {
    /** The pod list and the pod watch, the only writers of the pod-spec cache, run under this condition.
        The volume-usage flag is not part of it. */
    predicate WatchesPods() {
      containerLimitsPercentage || containerVolumeLimitsPercentage
    }
  }

  /** The tolerance in force for a configured number; an unreadable setting is configured as 0. */
  function Tolerance(configured: int): Positive {
    if configured < 1 then 2 else configured
  }
}
