/** The compiled configuration, as far as the decisions consult it. The regex
    lists and the desktop index are arbitrary functions. */
module Config {
  import opened Types

  datatype Policy = Policy(
    priorityFor: (string, Option<string>) -> U8,
    isProtected: string -> bool,
    checkpointOverride: string -> Option<bool>,
    checkpointEligible: string -> bool,
    targetAvailablePct: real)

  function GetPriority(p: Process, policy: Policy): U8
  {
    policy.priorityFor(p.name, p.exe)
  }
}
