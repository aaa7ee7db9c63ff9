/** The required-field check that the booking and rating routes run as a
    `for` loop over a list of field names, returning on the first field
    whose value is falsy. */
module Validation {
  import opened Tables

  /** A named request field and whether its value is present (truthy). */
  type Field = (string, bool)

  /** The name of the first absent field, if any. */
  function FirstAbsent(fields: seq<Field>): (r: Option<string>)
    ensures r.None? <==> forall i :: 0 <= i < |fields| ==> fields[i].1
    ensures r.Some? ==> exists i :: 0 <= i < |fields| && fields[i] == (r.value, false)
                                    && forall j :: 0 <= j < i ==> fields[j].1
  {
    if fields == [] then None
    else if !fields[0].1 then Some(fields[0].0)
    else
      var rest := FirstAbsent(fields[1..]);
      if rest.Some? then
        var i :| 0 <= i < |fields[1..]| && fields[1..][i] == (rest.value, false)
                 && forall j :: 0 <= j < i ==> fields[1..][j].1;
        assert fields[i + 1] == (rest.value, false);
        rest
      else rest
  }

  /** The loop itself: walks the fields in order and stops at the first
      absent one. */
  method FindMissingField(fields: seq<Field>) returns (missing: Option<string>)
    ensures missing == FirstAbsent(fields)
  {
    var i := 0;
    while i < |fields|
      invariant 0 <= i <= |fields|
      invariant forall j :: 0 <= j < i ==> fields[j].1
      invariant FirstAbsent(fields) == FirstAbsent(fields[i..])
    {
      if !fields[i].1 {
        return Some(fields[i].0);
      }
      assert fields[i..][1..] == fields[i + 1..];
      i := i + 1;
    }
    return None;
  }

  /** The message the routes reply with for an absent field. */
  function MissingFieldMessage(field: string): string
  {
    "Field " + field + " is required"
  }
}
