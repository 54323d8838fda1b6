/** What the three configuration validators share: their verdicts, and the
    first-error-wins rule over a list of required string fields. */
module Validation {
  import opened Wrappers

  /** A validator accepts with its implicit dependencies, rejects with a message, or
      dereferences a nil entry (which panics). */
  datatype Verdict = Accepted(deps: seq<string>) | Rejected(msg: string) | NilDereference

  /** A required field: its configured value and the message reported when it is empty. */
  datatype Required = Required(value: string, msg: string)

  /** The message of the first empty field, checking in order. */
  function FirstMissing(checks: seq<Required>): (r: Option<string>)
    ensures r.None? <==> forall i | 0 <= i < |checks| :: checks[i].value != ""
    ensures r.Some? ==> exists i | 0 <= i < |checks| ::
      && checks[i].value == ""
      && r.value == checks[i].msg
      && forall j | 0 <= j < i :: checks[j].value != ""
    decreases |checks|
  {
    if |checks| == 0 then None
    else if checks[0].value == "" then Some(checks[0].msg)
    else
      var r := FirstMissing(checks[1..]);
      assert forall i | 1 <= i < |checks| :: checks[i] == checks[1..][i - 1];
      if r.Some? then
        assert exists i | 0 <= i < |checks[1..]| ::
          && checks[1..][i].value == ""
          && r.value == checks[1..][i].msg
          && forall j | 0 <= j < i :: checks[1..][j].value != "";
        var i :| 0 <= i < |checks[1..]| && checks[1..][i].value == "" && r.value == checks[1..][i].msg
          && forall j | 0 <= j < i :: checks[1..][j].value != "";
        assert checks[i + 1].value == "" && r.value == checks[i + 1].msg;
        assert forall j | 0 <= j < i + 1 :: checks[j].value != "";
        r
      else r
  }

  /** The verdict a first-error-wins check gives. */
  function VerdictOf(checks: seq<Required>): (v: Verdict)
    ensures v == Accepted([]) <==> forall i | 0 <= i < |checks| :: checks[i].value != ""
    ensures v != Accepted([]) ==> v.Rejected?
  {
    match FirstMissing(checks)
    case None => Accepted([])
    case Some(m) => Rejected(m)
  }
}
