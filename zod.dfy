/** The part of zod's string schemas the forms use: `.trim()` followed by
    length and email checks. A failing check does not stop the others:
    every failing check adds one issue, in the order of the fields in the
    object schema and of the checks in each chain. Lengths are counted in
    characters. */
module Zod {
  import opened JsStrings

  /** One validation issue: the field it concerns and its message. */
  datatype Issue = Issue(path: string, message: string)

  /** `.min(n, message)`. */
  function MinCheck(path: string, s: string, n: nat, message: string): (issues: seq<Issue>)
    ensures issues == [] <==> |s| >= n
    ensures issues != [] ==> issues == [Issue(path, message)]
  {
    if |s| < n then [Issue(path, message)] else []
  }

  /** `.max(n, message)`. */
  function MaxCheck(path: string, s: string, n: nat, message: string): (issues: seq<Issue>)
    ensures issues == [] <==> |s| <= n
    ensures issues != [] ==> issues == [Issue(path, message)]
  {
    if |s| > n then [Issue(path, message)] else []
  }

  /** `.email(message)`; the address grammar is `isEmail`. */
  function EmailCheck(path: string, s: string, isEmail: string -> bool, message: string): (issues: seq<Issue>)
    ensures issues == [] <==> isEmail(s)
    ensures issues != [] ==> issues == [Issue(path, message)]
  {
    if !isEmail(s) then [Issue(path, message)] else []
  }

  /** zod's default messages for the length checks used without one. */
  const AtMost50 := "String must contain at most 50 character(s)"
  const AtMost100 := "String must contain at most 100 character(s)"
  const AtMost200 := "String must contain at most 200 character(s)"
  const AtMost255 := "String must contain at most 255 character(s)"
  const AtMost1000 := "String must contain at most 1000 character(s)"
}
