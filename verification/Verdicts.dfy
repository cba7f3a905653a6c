/** Scan verdicts: the job states and the rule that merges two findings. */
module Verdicts {

  datatype Option<+T> = None | Some(value: T)

  type Byte = b: int | 0 <= b < 256

  datatype ScanStatus = Pending | Scanning | Clean | Infected | Error | TooLarge

  datatype Finding = Finding(status: ScanStatus, threat: string)

  /** What is sent on a job's result channel. */
  datatype Verdict = Verdict(clean: bool, threat: string)

  predicate Terminal(s: ScanStatus) {
    s != Pending && s != Scanning
  }

  predicate Cacheable(s: ScanStatus) {
    s == Clean || s == Infected
  }

  /** The more restrictive of two findings; an infected first argument wins. */
  function Merge(a: Finding, b: Finding): Finding {
    if a.status == Infected then a
    else if b.status == Infected then b
    else a
  }

  function MergeIfHit(a: Finding, hit: Option<Finding>): Finding {
    if hit.Some? then Merge(a, hit.value) else a
  }
}
