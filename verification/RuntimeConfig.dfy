/** The runtime configuration and the checks it must pass. */
module RuntimeConfigs {
  import opened Outcomes
  import opened Bytes
  import opened ResultPacket

  const SIZE_LIMIT: nat := 0x1_0000_0000_0000_0000

  datatype RuntimeConfig = RuntimeConfig(
    width: UInt32, height: UInt32, cameraFps: real, subsetRadius: Int32, gridStep: Int32, searchRadius: Int32,
    framePoolSize: UInt64, captureQueueSize: UInt64)

  /** Sizes are 64 bits wide, so the sum in the last check wraps around. */
  function Validate(c: RuntimeConfig): (o: Outcome<()>)
  {
    if c.width < 64 || c.height < 64 then Threw(ImageTooSmall)
    else if c.cameraFps <= 0.0 then Threw(FpsNotPositive)
    else if c.subsetRadius < 2 || c.gridStep < 1 || c.searchRadius < 0 then Threw(GridInvalid)
    else if c.framePoolSize < (c.captureQueueSize + 3) % SIZE_LIMIT then Threw(PoolTooSmall)
    else Done(())
  }

  predicate Valid(c: RuntimeConfig) { Validate(c).Done? }

  /** The pool that the pipeline needs: accepted configurations have it exactly if the sum does not wrap. */
  predicate PoolFits(c: RuntimeConfig) { c.framePoolSize >= c.captureQueueSize + 3 }

  lemma {:induction false} ValidFits(c: RuntimeConfig)
    requires Valid(c)
    ensures PoolFits(c) <==> c.captureQueueSize + 3 < SIZE_LIMIT
  {
  }

  /** A configuration that passes with a queue that can hold every frame. */
  lemma {:induction false} WrappedFits() returns (c: RuntimeConfig)
    ensures Valid(c) && !PoolFits(c) && c.framePoolSize < c.captureQueueSize
  {
    c := RuntimeConfig(4504, 4096, 21.4, 20, 32, 8, 8, SIZE_LIMIT - 1);
  }
}
