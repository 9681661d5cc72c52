/**
  The attributes of a PBS batch job, as one value, and the way `str.format`
  renders each of them into the submit script.
*/
module JobRecord {
  import opened Optional

  /**
    The fourteen attributes a `Job` carries. `None` is Python's `None`. `walltime`,
    `queue` and `command` have no default and are `None` until set; `name`,
    `priority` and `auto` always hold a value.
  */
  datatype JobFields = JobFields(
    name: string,
    account: Option<string>,
    nodes: int,
    ppn: int,
    walltime: Option<string>,
    pmem: Option<string>,
    queue: Option<string>,
    exetime: Option<string>,
    message: Option<string>,
    email: Option<string>,
    priority: string,
    command: Option<string>,
    auto: bool,
    jobID: Option<string>)

  /** `"{0}".format(v)` for a string-or-None attribute: `None` is written as the word `None`. */
  function Show(v: Option<string>): string {
    match v
    case None => "None"
    case Some(x) => x
  }

  /** `"{0}".format(b)` for a bool. */
  function ShowBool(b: bool): (s: string)
    ensures s == "True" || s == "False"
    ensures b <==> s[0] == 'T'
  {
    if b then "True" else "False"
  }
}
