/** The loader's configuration record and its log-level policy. */
module Configuration {
  import Types

  /** Logging verbosity: `None` prints nothing, `Basic` only lifecycle
      events (start, success, error), `Verbose` also joins, cancellations
      and other internal state changes. */
  datatype LogLevel = None | Basic | Verbose

  /** The format the loader is configured to cache downloaded images in.
      The JPEG quality is a floating-point factor, kept as a real. */
  datatype Encoding = Png | Jpeg(quality: real)

  /** The configuration record. `diskCacheTTL` (seconds) and `imageEncoding`
      are read by the disk cache and by the loader but are not declared by
      the configuration struct; they are added here with the defaults
      "no TTL" and PNG. */
  datatype Config = Config(
    cancelPreviousLoadForSameURL: bool,
    enableGlobalCancellation: bool,
    logLevel: LogLevel,
    diskCacheTTL: Types.Option<int>,
    imageEncoding: Encoding)

  /** The initializer: each argument lands in its field under the field's
      own name (`autoCancelOnReuse` is the reuse-cancellation flag,
      `enableBatchCancelation` the global-cancellation flag). */
  function Init(autoCancelOnReuse: bool, enableBatchCancelation: bool, logLevel: LogLevel): (c: Config)
    ensures c.cancelPreviousLoadForSameURL == autoCancelOnReuse
    ensures c.enableGlobalCancellation == enableBatchCancelation
    ensures c.logLevel == logLevel
    ensures c.diskCacheTTL == Types.None && c.imageEncoding == Png
  {
    Config(autoCancelOnReuse, enableBatchCancelation, logLevel, Types.None, Png)
  }

  /** `.default`: the initializer with all its default arguments. */
  function Default(): (c: Config)
    ensures c.cancelPreviousLoadForSameURL && c.enableGlobalCancellation
    ensures c.logLevel == Basic
    ensures c.diskCacheTTL == Types.None
  {
    Init(true, true, Basic)
  }

  /** Position of a level on the verbosity scale. */
  function Rank(level: LogLevel): nat {
    match level
    case None => 0
    case Basic => 1
    case Verbose => 2
  }

  /** Whether the loader prints a message of `level` when configured with
      `configured`. For the levels messages are actually logged at (basic
      and verbose) this is "the message is no more verbose than the
      configuration". */
  function ShouldLog(configured: LogLevel, level: LogLevel): (r: bool)
    ensures configured == None ==> !r
    ensures level != None ==> (r <==> Rank(level) <= Rank(configured))
  {
    configured != None && (configured == Verbose || level == Basic)
  }
}
