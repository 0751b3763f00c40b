/**
 * The signal sent to the child when the time budget runs out. The package
 * fixes a platform default once, at start-up, and a configured signal
 * overrides it.
 */
module SignalPolicy {

  /**
   * The signals the model tells apart: the interrupt signal (the only one
   * Windows offers), SIGTERM, and any other signal by number.
   */
  datatype Signal = Interrupt | Sigterm | OtherSignal(number: int)

  /** The default chosen at start-up from the target operating system's name. */
  function DefaultSignal(goos: string): (sig: Signal)
    ensures sig == Interrupt || sig == Sigterm
    ensures sig == Interrupt <==> goos == "windows"
  {
    match goos
    case "windows" => Interrupt
    case _ => Sigterm
  }

  /** The default is the interrupt signal on Windows and SIGTERM on every other system. */
  lemma DefaultSignalByPlatform(goos: string)
    ensures DefaultSignal(goos) == Interrupt <==> goos == "windows"
    ensures DefaultSignal(goos) == Sigterm <==> goos != "windows"
  {
  }
}
