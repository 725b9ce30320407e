/** Configuration and addresses as callers give them (isotp/config.go, isotp/address.go), and what a
    new session makes of them. */
module SessionConfig {
  import opened Basics
  import Spec = IsoTpSpec

  const DEFAULT_MAX_PAYLOAD_SIZE := 16 * 1024 * 1024
  const DEFAULT_MAX_WAIT_FRAMES := 8
  const MAX_STANDARD_CAN_ID := 0x7FF

  /** Any integers; both timeouts in nanoseconds. */
  datatype RawConfig = RawConfig(manualFlowControl: bool, paddingByte: Option<byte>,
                                 flowControlTimeout: int, consecutiveFrameTimeout: int,
                                 blockSize: int, stMin: int, maxPayloadSize: int, maxWaitFrames: int)

  datatype Address = Address(txID: nat, rxID: nat)

  predicate Accepted(c: RawConfig) {
    && c.flowControlTimeout > 0 && c.consecutiveFrameTimeout > 0
    && 0 <= c.blockSize <= 255 && 0 <= c.stMin <= 127 && c.maxPayloadSize >= 0
  }

  /** Zero limits stand for the defaults. */
  function Defaulted(c: RawConfig): RawConfig {
    c.(maxPayloadSize := if c.maxPayloadSize == 0 then DEFAULT_MAX_PAYLOAD_SIZE else c.maxPayloadSize,
       maxWaitFrames := if c.maxWaitFrames == 0 then DEFAULT_MAX_WAIT_FRAMES else c.maxWaitFrames)
  }

  function NormalizeConfig(c: RawConfig): Option<Spec.Config> {
    var d := Defaulted(c);
    if !Accepted(d) then None
    else Some(Spec.Config(d.manualFlowControl, d.paddingByte, d.blockSize, d.stMin, d.maxPayloadSize, d.maxWaitFrames))
  }

  predicate ValidAddress(a: Address) { a.txID <= MAX_STANDARD_CAN_ID && a.rxID <= MAX_STANDARD_CAN_ID }

  function DefaultConfig(): RawConfig {
    RawConfig(false, None, 1_000_000_000, 1_000_000_000, 0, 20, DEFAULT_MAX_PAYLOAD_SIZE, DEFAULT_MAX_WAIT_FRAMES)
  }

  /** The configuration a session works with. */
  predicate Usable(c: Spec.Config) {
    Spec.ValidConfig(c) && c.maxPayloadSize > 0 && c.maxWaitFrames != 0
  }

  /** Exactly the accepted configurations come through, each as a usable one and as it was asked for, but for
      zeros that stand for 16 MiB and for eight WAITs; and every usable one can be asked for: the sessions
      that exist are those of all usable configurations. */
  lemma NormalizeExact(c: RawConfig)
    ensures NormalizeConfig(c).Some? <==> Accepted(c)
    ensures NormalizeConfig(c).Some? <==>
            && c.flowControlTimeout > 0 && c.consecutiveFrameTimeout > 0
            && 0 <= c.blockSize < 256 && 0 <= c.stMin < 128 && c.maxPayloadSize >= 0
    ensures NormalizeConfig(c).Some? ==>
              var n := NormalizeConfig(c).value;
              && Usable(n)
              && n == Spec.Config(c.manualFlowControl, c.paddingByte, c.blockSize, c.stMin,
                                  if c.maxPayloadSize == 0 then 16_777_216 else c.maxPayloadSize,
                                  if c.maxWaitFrames == 0 then 8 else c.maxWaitFrames)
    ensures NormalizeConfig(DefaultConfig()).Some?
  {
  }

  /** Both identifiers of an address have 11 bits. */
  lemma ElevenBits(a: Address)
    ensures ValidAddress(a) <==> a.txID < 2048 && a.rxID < 2048
  {
  }

  lemma EveryUsable(c: Spec.Config)
    requires Usable(c)
    ensures exists raw :: NormalizeConfig(raw) == Some(c)
  {
    var raw := RawConfig(c.manualFlowControl, c.paddingByte, 1, 1, c.blockSize, c.stMin,
                         c.maxPayloadSize, c.maxWaitFrames);
    assert NormalizeConfig(raw) == Some(c);
  }
}
