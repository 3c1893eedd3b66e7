/** The status label of a managed container and the name it is reported under. */
module StatusDeriver {
  import opened StatusTypes

  /** The label a managed container is reported with: a restart loop is an
      error even while the container is running. */
  function DeriveStatus(i: Inspection): (s: string)
    requires !i.NotManaged?
    ensures IsLabel(s)
    ensures s == StatusError <==> i.InspectError? || (i.Inspected? && i.restarting)
    ensures s == StatusStarted <==> i.Inspected? && !i.restarting && i.running
    ensures s == StatusStopped <==> i.Inspected? && !i.restarting && !i.running
  {
    if i.InspectError? then StatusError
    else if i.restarting then StatusError
    else if i.running then StatusStarted
    else StatusStopped
  }

  /** `s` without `prefix`, once, when `s` starts with it. */
  function TrimPrefix(s: string, prefix: string): (r: string)
    ensures prefix <= s ==> prefix + r == s
    ensures !(prefix <= s) ==> r == s
    ensures |r| <= |s|
  {
    if prefix <= s then s[|prefix|..] else s
  }

  /** The reported name: the first runtime name with one leading '/' dropped,
      or empty when the container has no name. */
  function ReportedName(names: seq<string>): (r: string)
    ensures names == [] ==> r == ""
    ensures names != [] && names[0] != "" && names[0][0] == '/' ==> "/" + r == names[0]
    ensures names != [] && (names[0] == "" || names[0][0] != '/') ==> r == names[0]
  {
    if |names| > 0 then TrimPrefix(names[0], "/") else ""
  }

  /** Exactly one separator is stripped, whatever follows it. */
  lemma ReportedNameStripsOneSlash(n: string, more: seq<string>)
    ensures ReportedName(["/" + n] + more) == n
  {
  }

  /** A name that does not start with a separator passes through unchanged. */
  lemma ReportedNameKeepsPlainName(n: string, more: seq<string>)
    requires n == "" || n[0] != '/'
    ensures ReportedName([n] + more) == n
  {
  }
}
