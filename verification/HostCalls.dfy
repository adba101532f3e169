/** What the operating system answers to the calls made on the debuggee. */
module HostCalls {
  /** `Broken` fails after part of the effect: so many bytes written, or all that comes
      before the last system call of an operation done. */
  datatype HostResult = Granted | Refused | Broken(done: nat)

  /** The answer to the next call; calls past the end of the script are granted. */
  function Answer(script: seq<HostResult>): HostResult {
    if script == [] then Granted else script[0]
  }

  function Later(script: seq<HostResult>): seq<HostResult> {
    if script == [] then [] else script[1..]
  }

  /** Every call is granted. */
  ghost predicate Smooth(script: seq<HostResult>) {
    forall i :: 0 <= i < |script| ==> script[i].Granted?
  }
}
