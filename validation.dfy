/** The fail-fast validation loops of both forms in cop_mod.py and the choice
    of the message shown when a field is rejected. */
module Validation {
  import opened Numeral

  /** The position of the first field the pattern rejects, if any. */
  function FirstInvalid(fields: seq<string>): (r: Option<nat>)
    ensures r.Some? ==> r.value < |fields| && !Matches(fields[r.value])
    ensures r.Some? ==> forall j | 0 <= j < r.value :: Matches(fields[j])
    ensures r.None? <==> forall j | 0 <= j < |fields| :: Matches(fields[j])
  {
    if fields == [] then None
    else if !Matches(fields[0]) then Some(0)
    else match FirstInvalid(fields[1..])
      case None => None
      case Some(k) => Some(k + 1)
  }

  /** Fail-fast: once a field is rejected, the fields after it play no part;
      replacing them by anything reports the same position. */
  lemma {:induction false} FailFast(fields: seq<string>, k: nat, rest: seq<string>)
    requires FirstInvalid(fields) == Some(k)
    ensures FirstInvalid(fields[..k + 1] + rest) == Some(k)
  {
    if k > 0 {
      assert fields[1..][..k] + rest == (fields[..k + 1] + rest)[1..];
      FailFast(fields[1..], k - 1, rest);
    }
  }

  /** The loop `for i in [...]: if re.match(pattern, i): pass else: flag=1; break`
      (cop_mod.py lines 94-101 and 150-157). It returns the final `flag` and the
      field the loop variable is left naming: the first rejected field if there
      is one, else the last field. */
  method ScanFields(fields: seq<string>) returns (flag: int, current: string)
    requires fields != []
    ensures flag == 0 || flag == 1
    ensures flag == 1 <==> FirstInvalid(fields).Some?
    ensures flag == 1 ==> current == fields[FirstInvalid(fields).value]
    ensures flag == 0 ==> current == fields[|fields| - 1]
  {
    flag := 0;
    current := fields[0];
    var n := 0;
    while n < |fields|
      invariant 0 <= n <= |fields|
      invariant forall j | 0 <= j < n :: Matches(fields[j])
      invariant current == fields[if n == 0 then 0 else n - 1]
    {
      current := fields[n];
      if !Matches(current) {
        flag := 1;
        break;
      }
      n := n + 1;
    }
  }

  /** The two messages the forms can show for a rejected field. */
  datatype Message = SpaceNotAllowed | InvalidValue(value: string)

  /** Lines 104-107 and 160-163: an empty offending field gets the "space not
      allowed" message, any other one the "invalid value" message that echoes it. */
  function MessageFor(offending: string): (m: Message)
    ensures m == SpaceNotAllowed <==> offending == ""
    ensures m.InvalidValue? ==> m.value == offending
  {
    if |offending| == 0 then SpaceNotAllowed else InvalidValue(offending)
  }

  /** The text shown for an empty field (lines 105 and 161). */
  const SpaceNotAllowedText := "please enter a valid number space not allowed"

  /** The text shown before an offending field (lines 107 and 163). */
  const InvalidValuePrefix := "You have entered an invalid value: "

  /** The arguments the message is written with (`st.write(...)`). */
  function WriteArgs(m: Message): (args: seq<string>)
    ensures m == SpaceNotAllowed ==> args == [SpaceNotAllowedText]
    ensures m.InvalidValue? ==> args == [InvalidValuePrefix, m.value]
  {
    match m
    case SpaceNotAllowed => [SpaceNotAllowedText]
    case InvalidValue(v) => [InvalidValuePrefix, v]
  }

  /** The message depends only on the offending field, and two fields get the
      same message exactly when they are equal. */
  lemma MessageDeterminesField(a: string, b: string)
    ensures MessageFor(a) == MessageFor(b) <==> a == b
    ensures WriteArgs(MessageFor(a)) == WriteArgs(MessageFor(b)) <==> a == b
  {
  }

  /** A field of spaces is rejected, but it gets the "invalid value" message,
      not the "space not allowed" one: that one is reserved for the empty field. */
  lemma SpacesGetInvalidValue(s: string)
    requires |s| > 0 && forall i | 0 <= i < |s| :: s[i] == ' '
    ensures !Matches(s) && MessageFor(s) == InvalidValue(s)
  {
    ForeignCharRejected(s, 0);
  }
}
