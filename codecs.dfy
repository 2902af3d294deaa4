/**
 * Codec-to-strategy selection done once when a Builder is created
 * (pkg/builder.go, NewBuilder). The depacketizer and the partition-head
 * checker are the external rtp/codecs implementations; here each is a tag
 * naming the payload format it belongs to.
 */
module Codecs {
  import opened Wrappers

  /** The codec names the webrtc package defines for the four formats matched. */
  const OpusName: string := "opus"
  const VP8Name: string := "VP8"
  const VP9Name: string := "VP9"
  const H264Name: string := "H264"

  /** Payload formats for which rtp/codecs has a depacketizer. */
  datatype Format = Opus | VP8 | VP9 | H264

  /**
   * The strategy bound to a sample builder: the depacketizer handed to
   * samplebuilder.New (None models Go's nil interface value) and the
   * partition-head checker installed with WithPartitionHeadChecker, if any.
   */
  datatype Strategy = Strategy(depacketizer: Option<Format>, checker: Option<Format>)

  /** The codec name each format is negotiated under (an independent reference table). */
  function NameOf(f: Format): string
  {
    match f
    case Opus => OpusName
    case VP8 => VP8Name
    case VP9 => VP9Name
    case H264 => H264Name
  }

  /** Formats whose rtp/codecs package provides a partition-head checker. */
  predicate HasChecker(f: Format)
  {
    f != H264
  }

  /**
   * The switch of NewBuilder. A known name selects its format's
   * depacketizer, and its checker where one exists; any other name falls
   * through with neither, and no error is reported.
   */
  function Select(codecName: string): (s: Strategy)
    ensures forall f :: codecName == NameOf(f) ==> s.depacketizer == Some(f)
    ensures s.depacketizer.None? <==> forall f :: codecName != NameOf(f)
    ensures s.depacketizer.Some? ==> NameOf(s.depacketizer.value) == codecName
    ensures s.checker.Some? <==> s.depacketizer.Some? && HasChecker(s.depacketizer.value)
    ensures s.checker.Some? ==> s.checker == s.depacketizer
  {
    if codecName == OpusName then Strategy(Some(Opus), Some(Opus))
    else if codecName == VP8Name then Strategy(Some(VP8), Some(VP8))
    else if codecName == VP9Name then Strategy(Some(VP9), Some(VP9))
    else if codecName == H264Name then Strategy(Some(H264), None)
    else Strategy(None, None)
  }
}
